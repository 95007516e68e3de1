/** When the heartbeat restarts the kiosk, over runs of heartbeats. */
module RestartProofs {
  import opened Basics
  import opened ConfigText
  import opened ConfigFile
  import opened ConfigLines
  import opened ConfigRoundTrip
  import opened Heartbeat
  import opened DerivedUrls
  import opened UrlLines

  // ---- The keys involved ----

  lemma HeartbeatKeysShaped()
    ensures KeyShaped(MODE) && KeyShaped(SIGNAGE) && KeyShaped(VISITOR) && KeyShaped(LAYOUT)
  {
    ShortKeysShaped();
  }

  lemma HeartbeatKeysDiffer()
    ensures MODE != SIGNAGE && MODE != VISITOR && SIGNAGE != VISITOR
    ensures BACKEND != MODE && BACKEND != SIGNAGE && BACKEND != VISITOR && BACKEND != LAYOUT
    ensures LAYOUT != MODE && LAYOUT != SIGNAGE && LAYOUT != VISITOR
  {
    assert SIGNAGE[0] != VISITOR[0];
    assert |MODE| == 12 && |SIGNAGE| == |VISITOR| == 11 && |BACKEND| == 16 && |LAYOUT| == 14;
  }

  lemma LatestCons(s: Setting, rest: seq<Setting>, k: string)
    ensures Latest([s] + rest, k)
         == if Latest(rest, k).Some? then Latest(rest, k) else if s.key == k then Some(s.value) else None
  {
    assert ([s] + rest)[1..] == rest;
  }

  lemma LatestOfSettings(t: Target)
    ensures Latest(Settings(t), MODE) == Some(t.mode)
    ensures Latest(Settings(t), SIGNAGE) == Some(t.signage)
    ensures Latest(Settings(t), VISITOR) == Some(t.visitor)
    ensures Latest(Settings(t), BACKEND) == None && Latest(Settings(t), LAYOUT) == None
  {
    HeartbeatKeysDiffer();
    var (m, g, v) := (Setting(MODE, t.mode), Setting(SIGNAGE, t.signage), Setting(VISITOR, t.visitor));
    assert Settings(t) == [m] + ([g] + ([v] + []));
    forall k ensures Latest(Settings(t), k)
         == if k == VISITOR then Some(t.visitor) else if k == SIGNAGE then Some(t.signage)
            else if k == MODE then Some(t.mode) else None
    {
      LatestCons(v, [], k);
      LatestCons(g, [v] + [], k);
      LatestCons(m, [g] + ([v] + []), k);
    }
  }

  lemma ModesAreOneLine()
    ensures OneLine("signage") && OneLine("visitor") && OneLine("legacy_wall")
    ensures !HasQuote("signage") && !HasQuote("visitor") && !HasQuote("legacy_wall")
  {
  }

  lemma SettingsWritable(a: Assignment, url: string)
    requires OneLine(url)
    ensures Keyed(Settings(Showing(a, url))) && OneLiners(Settings(Showing(a, url)))
  {
    HeartbeatKeysShaped();
    ModesAreOneLine();
  }

  // ---- What one applied assignment reads back as ----

  /** The value `or` gives for a key after a write: the merged one, reread. */
  lemma OrAfterWrite(text: Option<string>, values: seq<Setting>, k: string)
    requires forall i | 0 <= i < |values| :: Harmless(values[i], k)
    ensures Or(Read(Some(Write(text, values))), k, "")
         == Reread(if Latest(values, k).Some? then Latest(values, k).value else Or(Read(text), k, ""))
  {
    ReadAfterWrite(text, values, k);
    RereadClean("");
  }

  lemma OrAfterPlainWrite(text: Option<string>, values: seq<Setting>, k: string)
    requires Keyed(values) && OneLiners(values)
    ensures Or(Read(Some(Write(text, values))), k, "")
         == Reread(if Latest(values, k).Some? then Latest(values, k).value else Or(Read(text), k, ""))
  {
    OrAfterWrite(text, values, k);
  }

  lemma OrFallback(d: Dict, k: string, fallback: string)
    ensures Or(d, k, fallback) == if Or(d, k, "") == "" then fallback else Or(d, k, "")
  {
  }

  lemma {:induction false} OrIsMember(text: Option<string>, k: string)
    ensures OneLine(Or(Read(text), k, ""))
  {
    ReadFileable(text);
    GetMember(Read(text), k);
  }

  /** A backend setting read from a file has no line break, so only the tail can bring one
      into a URL. */
  predicate PlainUrl(backend: string, a: Assignment) {
    OneLine(Tail(a)) || Base(backend) == ""
  }

  lemma UrlOneLine(text: Option<string>, a: Assignment)
    ensures OneLine(Base(Backend(text)))
    ensures OneLine(Url(Backend(text), a)) <==> PlainUrl(Backend(text), a)
  {
    OrIsMember(text, BACKEND);
    TrimRightSpec(Backend(text), IsSlash);
    ConcatOneLine(Base(Backend(text)), Tail(a));
  }

  lemma ConcatOneLine(a: string, b: string)
    ensures OneLine(a + b) <==> OneLine(a) && OneLine(b)
  {
    forall i | 0 <= i < |a + b| ensures (a + b)[i] == if i < |a| then a[i] else b[i - |a|] {
    }
    if OneLine(a + b) {
      assert forall i | 0 <= i < |a| :: (a + b)[i] == a[i];
      assert forall i | 0 <= i < |b| :: (a + b)[|a| + i] == b[i];
    }
  }

  lemma SettingsReadBack(text: Option<string>, t: Target)
    requires Keyed(Settings(t)) && OneLiners(Settings(t))
    requires t.mode == "legacy_wall" || t.mode == "signage" || t.mode == "visitor"
    ensures
      var after := Some(Write(text, Settings(t)));
      && InForce(Read(after)) == Target(t.mode, Reread(t.signage), Reread(t.visitor))
      && Backend(after) == Reread(Backend(text))
  {
    LatestOfSettings(t);
    OrAfterPlainWrite(text, Settings(t), MODE);
    OrFallback(Read(Some(Write(text, Settings(t)))), MODE, "legacy_wall");
    OrAfterPlainWrite(text, Settings(t), SIGNAGE);
    OrAfterPlainWrite(text, Settings(t), VISITOR);
    OrAfterPlainWrite(text, Settings(t), BACKEND);
    ModesAreOneLine();
    RereadClean(t.mode);
  }

  lemma RereadEmpty(v: string)
    ensures Reread(v) == "" <==> v == ""
  {
    if HasQuote(v) { RereadGrows(v); } else { RereadClean(v); }
  }

  /** The mode comes back exactly, the one URL and the backend reread. */
  lemma ShowingReadsBack(text: Option<string>, a: Assignment, url: string)
    requires OneLine(url)
    ensures
      var after := Some(Write(text, Settings(Showing(a, url))));
      InForce(Read(after)) == Showing(a, Reread(url)) && Backend(after) == Reread(Backend(text))
  {
    SettingsWritable(a, url);
    SettingsReadBack(text, Showing(a, url));
    RereadEmpty(url);
    RereadEmpty("");
  }

  /** One heartbeat: whether it restarts, and what it leaves in force. */
  lemma OneHeartbeat(text: Option<string>, a: Assignment)
    requires OneLine(Url(Backend(text), a))
    ensures
      var (after, restart) := ApplyAssignment(text, a);
      var url := Url(Backend(text), a);
      if InForce(Read(text)) == Showing(a, url) then after == text && !restart
      else restart && InForce(Read(after)) == Showing(a, Reread(url)) && Backend(after) == Reread(Backend(text))
  {
    TargetShowsUrl(Backend(text), a);
    ShowingReadsBack(text, a, Url(Backend(text), a));
  }

  /** A URL without a quote comes from a backend without one, or there is no URL at all. */
  lemma CleanUrlIsStable(backend: string, backend': string, a: Assignment)
    requires !HasQuote(Url(backend, a)) && (!HasQuote(backend) ==> backend' == backend)
    ensures Url(backend', a) == Url(backend, a)
  {
    if HasQuote(backend) {
      var slashes := BaseAndSlashes(backend);
      HasQuoteConcat(Base(backend), Tail(a));
    }
  }

  // ---- Main results: the single assignment ----

  ghost predicate LeavesAlone(writes: seq<seq<Setting>>, k: string) {
    forall i | 0 <= i < |writes| :: Latest(writes[i], k).None?
  }

  /** A setting survives any writes that do not name it. */
  lemma Unnamed(text: Option<string>, writes: seq<seq<Setting>>, k: string)
    requires Writable(writes) && LeavesAlone(writes, k)
    requires Get(Read(text), k).Some? ==> !HasQuote(Get(Read(text), k).value)
    ensures Get(Read(Rewritten(text, writes)), k) == Get(Read(text), k)
  {
    LatestValueReadsBack(text, writes, k);
    NoLatestWrite(writes, k);
  }

  lemma {:induction false} NoLatestWrite(writes: seq<seq<Setting>>, k: string)
    requires LeavesAlone(writes, k)
    ensures LatestWrite(writes, k).None?
  {
    if writes != [] {
      NoLatestWrite(writes[..|writes| - 1], k);
    }
  }

  /** No restart loop: once an assignment whose URL has no single quote and no line break
      has been applied, applying it again on any later heartbeat, with any other settings
      written in between, writes nothing and restarts nothing. */
  lemma ReapplyingIsQuiet(text: Option<string>, a: Assignment, writes: seq<seq<Setting>>)
    requires OneLine(Url(Backend(text), a)) && !HasQuote(Url(Backend(text), a))
    requires Writable(writes) && LeavesAlone(writes, MODE) && LeavesAlone(writes, SIGNAGE)
    requires LeavesAlone(writes, VISITOR) && LeavesAlone(writes, BACKEND)
    ensures
      var later := Rewritten(ApplyAssignment(text, a).0, writes);
      ApplyAssignment(later, a) == (later, false)
  {
    var after := ApplyAssignment(text, a).0;
    var later := Rewritten(after, writes);
    OneHeartbeat(text, a);
    RereadClean(Url(Backend(text), a));
    if !HasQuote(Backend(text)) {
      RereadClean(Backend(text));
      Unnamed(after, writes, BACKEND);
    }
    StillInForce(after, a, Url(Backend(text), a), writes);
    CleanUrlIsStable(Backend(text), Backend(later), a);
    TargetShowsUrl(Backend(later), a);
  }

  lemma StillInForce(text: Option<string>, a: Assignment, url: string, writes: seq<seq<Setting>>)
    requires InForce(Read(text)) == Showing(a, url) && !HasQuote(url)
    requires Writable(writes)
    requires LeavesAlone(writes, MODE) && LeavesAlone(writes, SIGNAGE) && LeavesAlone(writes, VISITOR)
    ensures InForce(Read(Rewritten(text, writes))) == Showing(a, url)
  {
    ModesAreOneLine();
    UnnamedOr(text, writes, MODE, "legacy_wall");
    UnnamedOr(text, writes, SIGNAGE, "");
    UnnamedOr(text, writes, VISITOR, "");
  }

  lemma UnnamedOr(text: Option<string>, writes: seq<seq<Setting>>, k: string, fallback: string)
    requires Writable(writes) && LeavesAlone(writes, k)
    requires !HasQuote(Or(Read(text), k, fallback))
    ensures Or(Read(Rewritten(text, writes)), k, fallback) == Or(Read(text), k, fallback)
  {
    Unnamed(text, writes, k);
  }

  type Handler = Option<string> -> (Option<string>, bool)

  /** n heartbeats in a row: the file and the restarts so far. */
  function Repeat(beat: Handler, text: Option<string>, n: nat): (Option<string>, nat) {
    if n == 0 then (text, 0)
    else
      var (before, count) := Repeat(beat, text, n - 1);
      var (after, restart) := beat(before);
      (after, count + One(restart))
  }

  function BeatOf(a: Assignment): Handler {
    text => ApplyAssignment(text, a)
  }

  function Heartbeats(text: Option<string>, a: Assignment, n: nat): (Option<string>, nat) {
    Repeat(BeatOf(a), text, n)
  }

  lemma {:induction false} QuietStays(beat: Handler, text: Option<string>, n: nat)
    requires beat(text) == (text, false)
    ensures Repeat(beat, text, n) == (text, 0)
  {
    if n > 0 {
      QuietStays(beat, text, n - 1);
    }
  }

  /** The file was last written when the backend setting was `backend`. */
  ghost predicate WrittenUnder(text: Option<string>, a: Assignment, backend: string) {
    InForce(Read(text)) == Showing(a, Reread(Url(backend, a))) && Backend(text) == Reread(backend)
  }

  /** A single quote follows the base of the derived URL: in its tail, or as the last
      character of the backend setting. */
  predicate QuoteFollowsBase(backend: string, a: Assignment) {
    Url(backend, a) != "" && (HasQuote(Tail(a)) || EndsQuoted(backend))
  }

  /** A heartbeat after a write restarts once more exactly when a quote follows the base. */
  lemma LaterHeartbeat(text: Option<string>, a: Assignment, backend: string)
    requires PlainUrl(Backend(text), a) && WrittenUnder(text, a, backend)
    ensures
      var (after, restart) := ApplyAssignment(text, a);
      && (restart <==> QuoteFollowsBase(backend, a))
      && if restart then WrittenUnder(after, a, Reread(backend)) else after == text
  {
    UrlOneLine(text, a);
    OneHeartbeat(text, a);
    BaseChanges(backend);
    RereadEmpty("");
    if Url(backend, a) != "" {
      RereadEmpty(Url(backend, a));
      UrlAfterReread(backend, Tail(a));
    }
  }

  lemma FirstHeartbeat(text: Option<string>, a: Assignment)
    requires PlainUrl(Backend(text), a) && InForce(Read(text)) != TargetOf(Backend(text), a)
    ensures WrittenUnder(Heartbeats(text, a, 1).0, a, Backend(text)) && Heartbeats(text, a, 1).1 == 1
  {
    assert Repeat(BeatOf(a), text, 0) == (text, 0);
    UrlOneLine(text, a);
    OneHeartbeat(text, a);
    TargetShowsUrl(Backend(text), a);
  }

  /** One more heartbeat of a run whose last write was made under `backend`. */
  lemma NextHeartbeat(text: Option<string>, a: Assignment, n: nat, backend: string) returns (b: string)
    requires n > 0 && PlainUrl(backend, a) && WrittenUnder(Heartbeats(text, a, n - 1).0, a, backend)
    ensures b == if QuoteFollowsBase(backend, a) then Reread(backend) else backend
    ensures WrittenUnder(Heartbeats(text, a, n).0, a, b)
    ensures Heartbeats(text, a, n).1 == Heartbeats(text, a, n - 1).1 + One(QuoteFollowsBase(backend, a))
  {
    b := if QuoteFollowsBase(backend, a) then Reread(backend) else backend;
    BaseChanges(backend);
    LaterHeartbeat(Heartbeats(text, a, n - 1).0, a, backend);
  }

  /** What n > 0 heartbeats leave behind, and how often they restarted. */
  lemma {:induction false} RunOfHeartbeats(text: Option<string>, a: Assignment, n: nat) returns (b: string)
    requires n > 0 && PlainUrl(Backend(text), a) && InForce(Read(text)) != TargetOf(Backend(text), a)
    ensures WrittenUnder(Heartbeats(text, a, n).0, a, b)
    ensures Base(b) == "" <==> Base(Backend(text)) == ""
    ensures n == 1 || !QuoteFollowsBase(Backend(text), a) ==> b == Backend(text)
    ensures n > 1 && QuoteFollowsBase(Backend(text), a) ==> !EndsQuoted(b)
    ensures Heartbeats(text, a, n).1
         == if n == 1 || !QuoteFollowsBase(Backend(text), a) then 1 else if HasQuote(Tail(a)) then n else 2
  {
    if n == 1 {
      b := Backend(text);
      FirstHeartbeat(text, a);
    } else {
      var b' := RunOfHeartbeats(text, a, n - 1);
      b := NextHeartbeat(text, a, n, b');
      BaseChanges(b');
    }
  }

  lemma NothingToDo(text: Option<string>, a: Assignment)
    requires InForce(Read(text)) == TargetOf(Backend(text), a)
    ensures ApplyAssignment(text, a) == (text, false)
  {
  }

  /** A heartbeat whose target URL has a line break restarts whatever the file holds, because
      no file reads back as it. */
  lemma {:induction false} LineBreakTargetAlwaysRestarts(text: Option<string>, a: Assignment)
    requires !OneLine(Url(Backend(text), a))
    ensures ApplyAssignment(text, a).1
  {
    var url := Url(Backend(text), a);
    TargetShowsUrl(Backend(text), a);
    LineBreaksNeverReadBack(text, if Showing(a, url).signage != "" then SIGNAGE else VISITOR, url);
  }

  predicate HasBase(text: Option<string>) {
    Base(Backend(text)) != ""
  }

  /** `ok` holds of the file before each of n heartbeats. */
  predicate Throughout(beat: Handler, text: Option<string>, n: nat, ok: Option<string> -> bool) {
    n == 0 || (Throughout(beat, text, n - 1, ok) && ok(Repeat(beat, text, n - 1).0))
  }

  lemma {:induction false} EachCounts(beat: Handler, text: Option<string>, n: nat, ok: Option<string> -> bool)
    requires Throughout(beat, text, n, ok) && forall t | ok(t) :: beat(t).1
    ensures Repeat(beat, text, n).1 == n
  {
    if n > 0 {
      EachCounts(beat, text, n - 1, ok);
    }
  }

  /** As long as there is a base to derive a URL from, every heartbeat with a line break in the
      tail restarts, also if the file's lines change under it. */
  lemma LineBreaksRestartEveryTime(text: Option<string>, a: Assignment, n: nat)
    requires !OneLine(Tail(a)) && Throughout(BeatOf(a), text, n, HasBase)
    ensures Heartbeats(text, a, n).1 == n
  {
    forall t | HasBase(t) ensures BeatOf(a)(t).1 {
      LineBreaksRestartNow(t, a);
    }
    EachCounts(BeatOf(a), text, n, HasBase);
  }

  lemma LineBreaksRestartNow(text: Option<string>, a: Assignment)
    requires !PlainUrl(Backend(text), a)
    ensures BeatOf(a)(text).1
  {
    UrlOneLine(text, a);
    LineBreakTargetAlwaysRestarts(text, a);
  }

  /** A line of the URL's tail is itself a setting of the backend. */
  predicate SetsBackend(a: Assignment) {
    !NoneSets(SplitLines(Tail(a)), BACKEND)
  }

  lemma OneLineSetsNoBackend(a: Assignment)
    requires OneLine(Tail(a))
    ensures !SetsBackend(a)
  {
    if Tail(a) != "" {
      SplitOneLine(Tail(a));
      PathSetsNothing(Tail(a), BACKEND);
    }
  }

  /** A URL with line breaks, none of which sets the backend, leaves it as any rewrite does. */
  lemma LineBreaksKeepBackend(text: Option<string>, a: Assignment)
    requires !PlainUrl(Backend(text), a) && !SetsBackend(a)
    ensures Backend(ApplyAssignment(text, a).0) == Reread(Backend(text))
  {
    UrlOneLine(text, a);
    LineBreakTargetAlwaysRestarts(text, a);
    var url := Url(Backend(text), a);
    TargetShowsUrl(Backend(text), a);
    UrlIsHarmless(a, Base(Backend(text)));
    SettingsHarmless(a, url);
    LatestOfSettings(Showing(a, url));
    OrAfterWrite(text, Settings(Showing(a, url)), BACKEND);
  }

  lemma UrlIsHarmless(a: Assignment, base: string)
    requires OneLine(base) && !OneLine(Tail(a)) && !SetsBackend(a)
    ensures Harmless(Setting(SIGNAGE, base + Tail(a)), BACKEND) && Harmless(Setting(VISITOR, base + Tail(a)), BACKEND)
  {
    HeartbeatKeysShaped();
    HeartbeatKeysDiffer();
    TailIsHarmless(SIGNAGE, base, Tail(a), BACKEND);
    TailIsHarmless(VISITOR, base, Tail(a), BACKEND);
  }

  lemma SettingsHarmless(a: Assignment, url: string)
    requires url != "" && Harmless(Setting(SIGNAGE, url), BACKEND) && Harmless(Setting(VISITOR, url), BACKEND)
    ensures
      var values := Settings(Showing(a, url));
      forall i | 0 <= i < |values| :: Harmless(values[i], BACKEND)
  {
    HeartbeatKeysShaped();
    ModesAreOneLine();
    assert OneLine("");
  }

  lemma {:induction false} RestartsForever(beat: Handler, text: Option<string>, n: nat, bad: Option<string> -> bool)
    requires bad(text) && forall t | bad(t) :: beat(t).1 && bad(beat(t).0)
    ensures Repeat(beat, text, n).1 == n && bad(Repeat(beat, text, n).0)
  {
    if n > 0 {
      RestartsForever(beat, text, n - 1, bad);
    }
  }

  lemma LineBreaksRestart(text: Option<string>, a: Assignment, n: nat)
    requires !PlainUrl(Backend(text), a) && !SetsBackend(a)
    ensures Heartbeats(text, a, n).1 == n
  {
    var bad := t => !PlainUrl(Backend(t), a);
    forall t | bad(t) ensures BeatOf(a)(t).1 && bad(BeatOf(a)(t).0) {
      LineBreaksRestartNow(t, a);
      LineBreaksKeepBackend(t, a);
      BaseChanges(Backend(t));
    }
    RestartsForever(BeatOf(a), text, n, bad);
  }

  /** How often n heartbeats with the same assignment restart the kiosk, exactly, for every
      file and every assignment no line of whose URL is itself a setting of the backend: never
      if its target is in force; every time if the URL has a line break, or a single quote in
      its tail, since the stored URL never reads back equal; once if no single quote follows
      the base of the URL; and twice if the only one is the last character of the backend
      setting, which the first rewrite turns into another. */
  lemma RestartsExactly(text: Option<string>, a: Assignment, n: nat)
    requires !SetsBackend(a)
    ensures Heartbeats(text, a, n).1
         == if n == 0 || InForce(Read(text)) == TargetOf(Backend(text), a) then 0
            else if !OneLine(Url(Backend(text), a)) then n
            else if n == 1 || !QuoteFollowsBase(Backend(text), a) then 1
            else if HasQuote(Tail(a)) then n
            else 2
  {
    UrlOneLine(text, a);
    if InForce(Read(text)) == TargetOf(Backend(text), a) {
      NothingToDo(text, a);
      QuietStays(BeatOf(a), text, n);
    } else if !PlainUrl(Backend(text), a) {
      LineBreaksRestart(text, a, n);
    } else if n > 0 {
      var b := RunOfHeartbeats(text, a, n);
    }
  }

  // ---- Main results: per-output assignments ----

  lemma LayoutWritable(layout: string)
    requires layout == "independent" || layout == "mirror"
    ensures !HasQuote(layout)
    ensures
      var values := [Setting(LAYOUT, layout)];
      Keyed(values) && OneLiners(values) && Latest(values, LAYOUT) == Some(layout) && Latest(values, BACKEND) == None
  {
    HeartbeatKeysShaped();
    HeartbeatKeysDiffer();
    var setting := Setting(LAYOUT, layout);
    assert [setting] + [] == [setting];
    LatestCons(setting, [], LAYOUT);
    LatestCons(setting, [], BACKEND);
  }

  lemma LayoutReadsBack(conf: Option<string>, layout: string)
    requires layout == "independent" || layout == "mirror"
    ensures Layout(WithLayout(conf, layout)) == layout
    ensures Backend(WithLayout(conf, layout)) == Reread(Backend(conf))
  {
    var values := [Setting(LAYOUT, layout)];
    LayoutWritable(layout);
    OrAfterPlainWrite(conf, values, LAYOUT);
    OrFallback(Read(WithLayout(conf, layout)), LAYOUT, "mirror");
    OrAfterPlainWrite(conf, values, BACKEND);
    RereadClean(layout);
  }

  /** A non-empty map restarts exactly when the layout was not independent, no content was
      stored, or the outputs or their touch flags changed; afterwards it is in force. */
  lemma OutputsRestartExactly(f: Files, items: seq<Item>, unlinked: bool)
    requires items != []
    ensures
      var (f', restart) := ApplyOutputs(f, items, unlinked);
      var content := ContentOf(Backend(f.conf), items);
      && (restart <==> Layout(f.conf) != "independent" || f.content.None? || Shape(f.content.value) != Shape(content))
      && f'.content == Some(content) && Layout(f'.conf) == "independent"
      && (!restart ==> f'.conf == f.conf)
  {
    LayoutReadsBack(f.conf, "independent");
  }

  ghost predicate DistinctNames(items: seq<Item>) {
    forall i, j | 0 <= i < j < |items| :: items[i].name != items[j].name
  }

  ghost predicate Provides(items: seq<Item>, i: int, n: string, backend: string, e: Entry) {
    0 <= i < |items| && items[i].name == n && items[i].output.Output? && e == EntryOf(backend, items[i].output)
  }

  /** The content holds one entry per output of the map, its own, and nothing else. */
  lemma {:induction false} ContentHoldsEveryOutput(backend: string, items: seq<Item>, n: string, e: Entry)
    requires DistinctNames(items)
    ensures n in ContentOf(backend, items) && ContentOf(backend, items)[n] == e <==>
            exists i :: Provides(items, i, n, backend, e)
  {
    if items != [] {
      var before, k := items[..|items| - 1], |items| - 1;
      ContentHoldsEveryOutput(backend, before, n, e);
      assert forall i: int | 0 <= i < k :: before[i] == items[i];
      if items[k].output.Output? && items[k].name == n {
        assert Provides(items, k, n, backend, EntryOf(backend, items[k].output));
      } else {
        if i :| Provides(before, i, n, backend, e) {
          assert Provides(items, i, n, backend, e);
        }
        if i :| Provides(items, i, n, backend, e) {
          assert Provides(before, i, n, backend, e);
        }
      }
    }
  }

  /** The outputs that take part in a map and their touch flags, whatever they show. */
  function Touches(items: seq<Item>): map<string, bool> {
    if items == [] then map[]
    else
      var (rest, last) := (Touches(items[..|items| - 1]), items[|items| - 1]);
      if last.output.Output? then rest[last.name := last.output.touch] else rest
  }

  lemma {:induction false} ShapeIsTouches(backend: string, items: seq<Item>)
    ensures Shape(ContentOf(backend, items)) == Touches(items)
  {
    if items != [] {
      ShapeIsTouches(backend, items[..|items| - 1]);
      var (rest, last) := (ContentOf(backend, items[..|items| - 1]), items[|items| - 1]);
      if last.output.Output? {
        var whole := ContentOf(backend, items);
        assert whole == rest[last.name := EntryOf(backend, last.output)];
        assert Shape(whole).Keys == whole.Keys && Shape(rest).Keys == rest.Keys;
        assert Shape(whole) == Shape(rest)[last.name := last.output.touch];
      }
    }
  }

  function AfterMaps(f: Files, maps: seq<seq<Item>>): Files {
    if maps == [] then f else ApplyOutputs(AfterMaps(f, maps[..|maps| - 1]), maps[|maps| - 1], true).0
  }

  /** Over a run of non-empty maps the last one restarts exactly when its outputs or touch
      flags differ from the previous map's: URLs and modes never matter, nor does anything
      that happened earlier. */
  lemma RestartsFollowTouches(f: Files, maps: seq<seq<Item>>)
    requires |maps| >= 2 && forall i | 0 <= i < |maps| :: maps[i] != []
    ensures
      var n := |maps|;
      ApplyOutputs(AfterMaps(f, maps[..n - 1]), maps[n - 1], true).1 <==> Touches(maps[n - 1]) != Touches(maps[n - 2])
  {
    var n := |maps|;
    var before := maps[..n - 1];
    assert before[|before| - 1] == maps[n - 2];
    var f1 := AfterMaps(f, before[..|before| - 1]);
    OutputsRestartExactly(f1, maps[n - 2], true);
    ShapeIsTouches(Backend(f1.conf), maps[n - 2]);
    var f2 := AfterMaps(f, before);
    OutputsRestartExactly(f2, maps[n - 1], true);
    ShapeIsTouches(Backend(f2.conf), maps[n - 1]);
  }

  /** An output whose entry holds a URL derived from the backend setting. */
  predicate Derives(backend: string, o: Output) {
    o.Output? && o.mode == "signage" && BeaconUrl(backend, o.slug, o.publicKey) != ""
  }

  lemma EntryDependsOnBase(backend: string, o: Output)
    requires o.Output?
    ensures EntryOf(Reread(backend), o) == EntryOf(backend, o) <==> !HasQuote(backend) || !Derives(backend, o)
  {
    BaseChanges(backend);
    if o.mode == "signage" {
      var a := Assigned("signage", o.slug, o.publicKey);
      TargetShowsUrl(backend, a);
      TargetShowsUrl(Reread(backend), a);
      if Url(backend, a) != "" {
        SameTail(Base(backend), Base(Reread(backend)), Tail(a));
      }
    }
  }

  lemma SameTail(a: string, b: string, tail: string)
    ensures a + tail == b + tail <==> a == b
  {
    if a + tail == b + tail {
      assert (a + tail)[..|a|] == a && (b + tail)[..|b|] == b;
    }
  }

  lemma {:induction false} SameContent(b: string, b': string, items: seq<Item>)
    requires forall i | 0 <= i < |items| && items[i].output.Output? ::
               EntryOf(b', items[i].output) == EntryOf(b, items[i].output)
    ensures ContentOf(b', items) == ContentOf(b, items)
  {
    if items != [] {
      SameContent(b, b', items[..|items| - 1]);
    }
  }

  /** Rewriting the backend setting changes the content of a map exactly when the setting
      has a single quote and some output shows a URL derived from it. */
  lemma ContentAfterReread(backend: string, items: seq<Item>)
    requires DistinctNames(items)
    ensures ContentOf(Reread(backend), items) == ContentOf(backend, items) <==>
            !HasQuote(backend) || forall i | 0 <= i < |items| :: !Derives(backend, items[i].output)
  {
    forall i | 0 <= i < |items| && items[i].output.Output?
      ensures EntryOf(Reread(backend), items[i].output) == EntryOf(backend, items[i].output)
         <==> !HasQuote(backend) || !Derives(backend, items[i].output)
    {
      EntryDependsOnBase(backend, items[i].output);
    }
    if i :| 0 <= i < |items| && HasQuote(backend) && Derives(backend, items[i].output) {
      var (n, o) := (items[i].name, items[i].output);
      assert Provides(items, i, n, backend, EntryOf(backend, o));
      assert Provides(items, i, n, Reread(backend), EntryOf(Reread(backend), o));
      ContentHoldsEveryOutput(backend, items, n, EntryOf(backend, o));
      ContentHoldsEveryOutput(Reread(backend), items, n, EntryOf(Reread(backend), o));
    } else {
      SameContent(backend, Reread(backend), items);
    }
  }

  lemma WhenInForce(f: Files, items: seq<Item>, stored: Content)
    requires items != [] && Layout(f.conf) == "independent" && f.content == Some(stored)
    requires Shape(stored) == Shape(ContentOf(Backend(f.conf), items))
    ensures !ApplyOutputs(f, items, true).1
    ensures ApplyOutputs(f, items, true).0 == f <==> ContentOf(Backend(f.conf), items) == stored
  {
  }

  /** Applying the same map again never restarts, and it changes nothing at all exactly
      unless the first application rewrote a backend setting with a single quote that
      some output's URL derives from. */
  lemma RepeatedMapIsIdle(f: Files, items: seq<Item>)
    requires items != [] && DistinctNames(items)
    ensures
      var (f', restarted) := ApplyOutputs(f, items, true);
      var backend := Backend(f.conf);
      && !ApplyOutputs(f', items, true).1
      && (ApplyOutputs(f', items, true).0 == f' <==>
            !restarted || !HasQuote(backend) || forall i | 0 <= i < |items| :: !Derives(backend, items[i].output))
  {
    var (f', restarted) := ApplyOutputs(f, items, true);
    OutputsRestartExactly(f, items, true);
    BackendAfterOutputs(f, items);
    ShapeIsTouches(Backend(f.conf), items);
    ShapeIsTouches(Backend(f'.conf), items);
    WhenInForce(f', items, ContentOf(Backend(f.conf), items));
    ContentAfterReread(Backend(f.conf), items);
  }

  lemma BackendAfterOutputs(f: Files, items: seq<Item>)
    requires items != []
    ensures
      var (f', restarted) := ApplyOutputs(f, items, true);
      Backend(f'.conf) == if restarted then Reread(Backend(f.conf)) else Backend(f.conf)
  {
    LayoutReadsBack(f.conf, "independent");
  }
}
