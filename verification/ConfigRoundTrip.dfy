/** What survives in kiosk.conf: reads after any number of writes. */
module ConfigRoundTrip {
  import opened Basics
  import opened ConfigText
  import opened ConfigFile
  import opened ConfigLines

  // ---- One write ----

  /** A setting that cannot disturb key k: printed and read as one line of its own key, or, if it
      has line breaks, as lines none of which sets k. */
  predicate Harmless(s: Setting, k: string) {
    (KeyShaped(s.key) && OneLine(s.value)) || (s.key != k && Latest(LineSettings(s), k).None?)
  }

  lemma HarmlessElsewhere(s: Setting, k: string)
    requires Harmless(s, k)
    ensures Latest(LineSettings(s), k) == if s.key == k then Some(Reread(s.value)) else None
  {
    if KeyShaped(s.key) && OneLine(s.value) {
      OneLineHoldsItself(s);
      assert LineSettings(s)[1..] == [];
    }
  }

  lemma {:induction false} LatestPrinted(d: Dict, k: string)
    requires Unique(d) && forall i | 0 <= i < |d| :: Harmless(d[i], k)
    ensures Latest(Printed(d), k) == RereadOption(Get(d, k))
  {
    if d != [] {
      LatestPrinted(d[1..], k);
      LatestConcat(LineSettings(d[0]), Printed(d[1..]), k);
      HarmlessElsewhere(d[0], k);
      GetMember(d[1..], k);
      assert forall i | 0 <= i < |d[1..]| :: d[1..][i].key != d[0].key;
    }
  }

  /** A merged setting is one of those written, or a one-line one from the file. */
  lemma MergedFrom(text: Option<string>, values: seq<Setting>)
    ensures
      var d := Merge(Read(text), values);
      Unique(d) && forall s | s in d :: s in values || (KeyShaped(s.key) && OneLine(s.value))
  {
    var was := Read(text);
    ReadFileable(text);
    MergeMembers(was, values);
    forall s | s in was ensures KeyShaped(s.key) && OneLine(s.value) {
      var j :| 0 <= j < |was| && was[j] == s;
    }
  }

  lemma MergedIsHarmless(text: Option<string>, values: seq<Setting>, k: string)
    requires forall i | 0 <= i < |values| :: Harmless(values[i], k)
    ensures
      var d := Merge(Read(text), values);
      Unique(d) && forall i | 0 <= i < |d| :: Harmless(d[i], k)
  {
    MergedFrom(text, values);
    var d := Merge(Read(text), values);
    forall i | 0 <= i < |d| ensures Harmless(d[i], k) {
      assert d[i] in d;
    }
  }

  lemma KeysStay(text: Option<string>, k: string)
    requires Get(DEFAULTS, k).Some?
    ensures Get(Read(text), k).Some?
  {
    if text.Some? {
      LinesKeepKeys(DEFAULTS, SplitLines(text.value), k);
    }
  }

  /** One write, then one read, key by key: the merged value after one round of quoting and
      stripping, whatever the other keys hold as long as none of their lines sets this key. */
  lemma ReadAfterWrite(text: Option<string>, values: seq<Setting>, k: string)
    requires forall i | 0 <= i < |values| :: Harmless(values[i], k)
    ensures Get(Read(Some(Write(text, values))), k)
         == RereadOption(if Latest(values, k).Some? then Latest(values, k) else Get(Read(text), k))
  {
    var d := Merge(Read(text), values);
    ReadAfterAnyWrite(text, values);
    MergedIsHarmless(text, values, k);
    LatestPrinted(d, k);
    GetMerge(DEFAULTS, Printed(d), k);
    GetMerge(Read(text), values, k);
    if Get(DEFAULTS, k).Some? {
      KeysStay(text, k);
    }
  }

  /** A value with a line break never reads back, from any file at all. */
  lemma LineBreaksNeverReadBack(text: Option<string>, k: string, v: string)
    requires !OneLine(v)
    ensures Get(Read(text), k) != Some(v)
  {
    ReadFileable(text);
    GetMember(Read(text), k);
  }

  /** The settings printed after key k. */
  function After(d: Dict, k: string): Dict {
    if d == [] then [] else if d[0].key == k then d[1..] else After(d[1..], k)
  }

  /** What the lines of the settings printed after key k make of k. */
  function AddedLater(d: Dict, k: string): Option<string> {
    Latest(Printed(After(d, k)), k)
  }

  lemma {:induction false} LatestFromKey(d: Dict, k: string, v: string)
    requires Get(d, k) == Some(v)
    ensures
      var own := Latest(LineSettings(Setting(k, v)), k);
      AddedLater(d, k).Some? || own.Some? ==>
        Latest(Printed(d), k) == if AddedLater(d, k).Some? then AddedLater(d, k) else own
  {
    LatestConcat(LineSettings(d[0]), Printed(d[1..]), k);
    if d[0].key != k {
      LatestFromKey(d[1..], k, v);
    }
  }

  /** A written value reads back as itself exactly when it has no single quote and no line break,
      unless a setting printed after it has a line of its own that sets the key, which then
      decides: for every key of the right shape and whatever else is written with it. */
  lemma RoundTripExactly(text: Option<string>, values: seq<Setting>, k: string, v: string)
    requires KeyShaped(k) && Latest(values, k) == Some(v)
    ensures
      var added := AddedLater(Merge(Read(text), values), k);
      Get(Read(Some(Write(text, values))), k) == Some(v) <==>
        if added.Some? then added == Some(v) else OneLine(v) && !HasQuote(v)
  {
    var d := Merge(Read(text), values);
    ReadAfterAnyWrite(text, values);
    GetMerge(Read(text), values, k);
    GetMerge(DEFAULTS, Printed(d), k);
    LatestFromKey(d, k, v);
    if !OneLine(v) {
      LineBreaksNeverReadBack(Some(Write(text, values)), k, v);
    } else {
      RereadExactly(v);
      HarmlessElsewhere(Setting(k, v), k);
    }
  }

  lemma {:induction false} NothingAdded(d: Dict, k: string)
    requires Unique(d) && forall i | 0 <= i < |d| :: d[i].key == k || Harmless(d[i], k)
    ensures AddedLater(d, k).None?
  {
    if d != [] && d[0].key == k {
      var rest := d[1..];
      assert forall i | 0 <= i < |rest| :: rest[i] == d[i + 1] && rest[i].key != d[0].key;
      LatestPrinted(rest, k);
      GetMember(rest, k);
    } else if d != [] {
      NothingAdded(d[1..], k);
    }
  }

  /** In particular, among values none of whose lines sets the key. */
  lemma RoundTripAmongHarmless(text: Option<string>, values: seq<Setting>, k: string, v: string)
    requires KeyShaped(k) && Latest(values, k) == Some(v)
    requires forall i | 0 <= i < |values| :: values[i].key == k || Harmless(values[i], k)
    ensures Get(Read(Some(Write(text, values))), k) == Some(v) <==> OneLine(v) && !HasQuote(v)
  {
    var d := Merge(Read(text), values);
    MergedFrom(text, values);
    forall i | 0 <= i < |d| ensures d[i].key == k || Harmless(d[i], k) {
      assert d[i] in d;
    }
    NothingAdded(d, k);
    RoundTripExactly(text, values, k, v);
  }

  // ---- Any number of writes ----

  /** The file after a sequence of `write_config` calls. */
  function Rewritten(text: Option<string>, writes: seq<seq<Setting>>): Option<string> {
    if writes == [] then text
    else Some(Write(Rewritten(text, writes[..|writes| - 1]), writes[|writes| - 1]))
  }

  function LatestWrite(writes: seq<seq<Setting>>, k: string): Option<string> {
    if writes == [] then None
    else
      var last := Latest(writes[|writes| - 1], k);
      if last.Some? then last else LatestWrite(writes[..|writes| - 1], k)
  }

  ghost predicate Writable(writes: seq<seq<Setting>>) {
    forall i | 0 <= i < |writes| :: Keyed(writes[i]) && OneLiners(writes[i])
  }

  /** Over any sequence of writes, a key whose values never held a single quote reads as
      the latest value written to it, else as the original file's, else as the default. */
  lemma {:induction false} LatestValueReadsBack(text: Option<string>, writes: seq<seq<Setting>>, k: string)
    requires Writable(writes)
    requires forall i | 0 <= i < |writes| && Latest(writes[i], k).Some? :: !HasQuote(Latest(writes[i], k).value)
    requires Get(Read(text), k).Some? ==> !HasQuote(Get(Read(text), k).value)
    ensures
      var now := Get(Read(Rewritten(text, writes)), k);
      && now == (if LatestWrite(writes, k).Some? then LatestWrite(writes, k) else Get(Read(text), k))
      && (now.Some? ==> !HasQuote(now.value))
  {
    if writes != [] {
      var before, last := writes[..|writes| - 1], writes[|writes| - 1];
      LatestValueReadsBack(text, before, k);
      ReadAfterWrite(Rewritten(text, before), last, k);
      var merged := if Latest(last, k).Some? then Latest(last, k) else Get(Read(Rewritten(text, before)), k);
      if merged.Some? {
        RereadClean(merged.value);
      }
    }
  }

  /** A value with a single quote grows by at least two characters with every later write
      that does not replace it, without end. */
  lemma {:induction false} QuotedValueGrowsForever(text: Option<string>, writes: seq<seq<Setting>>, k: string,
                                                   v: string)
    requires Writable(writes) && forall i | 0 <= i < |writes| :: Latest(writes[i], k).None?
    requires Get(Read(text), k) == Some(v) && HasQuote(v)
    ensures
      var now := Get(Read(Rewritten(text, writes)), k);
      now.Some? && HasQuote(now.value) && |now.value| >= |v| + 2 * |writes|
  {
    if writes != [] {
      var before, last := writes[..|writes| - 1], writes[|writes| - 1];
      QuotedValueGrowsForever(text, before, k, v);
      ReadAfterWrite(Rewritten(text, before), last, k);
      RereadGrows(Get(Read(Rewritten(text, before)), k).value);
    }
  }
}
