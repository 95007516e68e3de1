/** What the launcher finds in kiosk.conf, key by key and character by character, after the
    heartbeat has applied an assignment. */
module AssignmentsInConf {
  import opened Basics
  import opened ConfigText
  import opened ConfigFile
  import opened ConfigLines
  import opened ConfigRoundTrip
  import opened Heartbeat
  import opened DerivedUrls
  import opened RestartProofs

  // ---- Any file ----

  lemma UniqueReads(d: Dict, i: nat)
    requires Unique(d) && i < |d|
    ensures Get(d, d[i].key) == Some(d[i].value)
  {
    GetMember(d, d[i].key);
  }

  lemma DefaultReads(i: nat)
    requires i < |DEFAULTS|
    ensures Get(Read(None), DEFAULTS[i].key) == Some(DEFAULTS[i].value)
  {
    ReadFileable(None);
    UniqueReads(DEFAULTS, i);
  }

  /** Without a file: what each key reads as. */
  lemma MissingFileReads()
    ensures Get(Read(None), "BLUEBIRD_BACKEND") == Some("https://bluebird-alerts.com")
    ensures Get(Read(None), "DISPLAY_MODE") == Some("legacy_wall")
    ensures Get(Read(None), "SIGNAGE_URL") == Get(Read(None), "VISITOR_URL") == Some("")
    ensures Get(Read(None), "SCHOOL_SLUG") == Get(Read(None), "LEGACY_WALL_URL") == Some("")
    ensures Get(Read(None), "DEVICE_ID") == Some("")
    ensures Get(Read(None), "ADMIN_PORT") == Some("7311") && Get(Read(None), "HEARTBEAT_INTERVAL_SEC") == Some("60")
    ensures Get(Read(None), "PRINT_AGENT_ENABLED") == Some("0")
    ensures Read(None) == DEFAULTS && |DEFAULTS| == 10
  {
    DefaultReads(0);
    DefaultReads(1);
    DefaultReads(2);
    DefaultReads(3);
    DefaultReads(4);
    DefaultReads(5);
    DefaultReads(6);
    DefaultReads(7);
    DefaultReads(8);
    DefaultReads(9);
  }

  /** This line sets the key. */
  predicate SetsKey(line: string, k: string) {
    ParseLine(line).Some? && ParseLine(line).value.key == k
  }

  ghost predicate NoLineSets(lines: seq<string>, k: string) {
    forall i | 0 <= i < |lines| :: !SetsKey(lines[i], k)
  }

  /** Line i sets the key, and no later line does. */
  ghost predicate LastSets(lines: seq<string>, i: int, k: string) {
    0 <= i < |lines| && SetsKey(lines[i], k) && forall j | i < j < |lines| :: !SetsKey(lines[j], k)
  }

  lemma LastSetsTail(lines: seq<string>, k: string)
    requires lines != []
    ensures NoLineSets(lines, k) <==> !SetsKey(lines[0], k) && NoLineSets(lines[1..], k)
    ensures LastSets(lines, 0, k) <==> SetsKey(lines[0], k) && NoLineSets(lines[1..], k)
    ensures forall i | i > 0 :: LastSets(lines, i, k) <==> LastSets(lines[1..], i - 1, k)
  {
    assert forall j | 0 < j < |lines| :: lines[j] == lines[1..][j - 1];
    assert forall j | 0 <= j < |lines[1..]| :: lines[1..][j] == lines[j + 1];
  }

  lemma ReadLineSets(d: Dict, line: string, k: string)
    ensures Get(ReadLine(d, line), k) == if SetsKey(line, k) then Some(ParseLine(line).value.value) else Get(d, k)
  {
    if ParseLine(line).Some? {
      GetPut(d, ParseLine(line).value.key, ParseLine(line).value.value, k);
    }
  }

  lemma {:induction false} LinesInOrder(d: Dict, lines: seq<string>, k: string)
    ensures NoLineSets(lines, k) ==> Get(ReadLines(d, lines), k) == Get(d, k)
    ensures forall i | LastSets(lines, i, k) :: Get(ReadLines(d, lines), k) == Some(ParseLine(lines[i]).value.value)
    decreases |lines|
  {
    if lines != [] {
      ReadLineSets(d, lines[0], k);
      LinesInOrder(ReadLine(d, lines[0]), lines[1..], k);
      LastSetsTail(lines, k);
      forall i | LastSets(lines, i, k) ensures Get(ReadLines(d, lines), k) == Some(ParseLine(lines[i]).value.value) {
        assert i > 0 ==> LastSets(lines[1..], i - 1, k) && lines[i] == lines[1..][i - 1];
      }
    }
  }

  /** A key reads as the last line of the file that sets it says, and if none does, as without
      a file. */
  lemma LastLineDecides(text: string, k: string)
    ensures
      var (lines, v) := (SplitLines(text), Get(Read(Some(text)), k));
      && (NoLineSets(lines, k) ==> v == Get(Read(None), k))
      && (forall i | LastSets(lines, i, k) :: v == Some(ParseLine(lines[i]).value.value))
  {
    LinesInOrder(DEFAULTS, SplitLines(text), k);
  }

  // ---- Parts of a URL, with any slashes around them ----

  predicate Slashes(s: string) {
    forall i | 0 <= i < |s| :: s[i] == '/'
  }

  /** Not empty, and neither starting nor ending with a slash. */
  predicate Bare(s: string) {
    s != "" && s[0] != '/' && s[|s| - 1] != '/'
  }

  lemma StripPadding(before: string, s: string, after: string)
    requires Bare(s) && Slashes(before) && Slashes(after)
    ensures Trim(before + s + after, IsSlash) == s
  {
    var (i, j) := (|before|, |before| + |s|);
    var padded := before + s + after;
    assert padded[i..j] == s;
    assert padded[i] == s[0] && padded[j - 1] == s[|s| - 1];
    TrimExact(padded, IsSlash, i, j);
  }

  lemma StripEnd(s: string, after: string)
    requires s != "" && s[|s| - 1] != '/' && Slashes(after)
    ensures TrimRight(s + after, IsSlash) == s
  {
    TrimSlashes(s, after);
  }

  lemma StripAll(s: string)
    requires Slashes(s)
    ensures Trim(s, IsSlash) == "" && TrimRight(s, IsSlash) == ""
  {
    TrimLeftExact(s, IsSlash, |s|);
    TrimRightExact(s, IsSlash, 0);
  }

  /** The value of BLUEBIRD_BACKEND, "" if there is none. */
  function BackendSetting(conf: Option<string>): string {
    var v := Get(Read(conf), "BLUEBIRD_BACKEND");
    if v.None? then "" else v.value
  }

  lemma BeaconUrlSpelt(text: Option<string>, b: string, t: string, s1: string, slug: string, s2: string,
                       k1: string, key: string, k2: string)
    requires BackendSetting(text) == b + t && b != "" && b[|b| - 1] != '/' && Slashes(t)
    requires Bare(slug) && Slashes(s1) && Slashes(s2) && Bare(key) && Slashes(k1) && Slashes(k2)
    ensures Url(Backend(text), Assigned("signage", s1 + slug + s2, k1 + key + k2))
         == b + "/" + slug + "/beacon/d/" + key
  {
    StripEnd(b, t);
    StripPadding(s1, slug, s2);
    StripPadding(k1, key, k2);
    BeaconTail(Assigned("signage", s1 + slug + s2, k1 + key + k2), slug, key);
    Regroup(b, "/", slug, "/beacon/d/", key);
  }

  lemma BeaconTail(a: Assignment, slug: string, key: string)
    requires a.Assigned? && a.mode == "signage" && slug != "" && key != ""
    requires Trim(a.slug, IsSlash) == slug && Trim(a.publicKey, IsSlash) == key
    ensures Tail(a) == "/" + slug + "/beacon/d/" + key
  {
  }

  lemma VisitorUrlSpelt(text: Option<string>, b: string, t: string, s1: string, slug: string, s2: string, k: string)
    requires BackendSetting(text) == b + t && b != "" && b[|b| - 1] != '/' && Slashes(t)
    requires Bare(slug) && Slashes(s1) && Slashes(s2)
    ensures Url(Backend(text), Assigned("visitor", s1 + slug + s2, k)) == b + "/" + slug + "/visitor-kiosk"
  {
    StripEnd(b, t);
    StripPadding(s1, slug, s2);
    VisitorTail(Assigned("visitor", s1 + slug + s2, k), slug);
    Regroup(b, "/", slug, "/visitor-kiosk", "");
  }

  lemma VisitorTail(a: Assignment, slug: string)
    requires a.Assigned? && a.mode == "visitor" && slug != "" && Trim(a.slug, IsSlash) == slug
    ensures Tail(a) == "/" + slug + "/visitor-kiosk"
  {
  }

  // ---- The three keys ----

  lemma DefaultKeysPresent()
    ensures Get(DEFAULTS, "DISPLAY_MODE").Some?
    ensures Get(DEFAULTS, "SIGNAGE_URL").Some? && Get(DEFAULTS, "VISITOR_URL").Some?
  {
    MissingFileReads();
  }

  /** kiosk.conf tells the launcher to show `signage`, or `visitor`, or else the legacy wall,
      which an empty mode means as well. */
  ghost predicate Says(conf: Option<string>, mode: string, signage: string, visitor: string) {
    && Get(Read(conf), "SIGNAGE_URL") == Some(signage) && Get(Read(conf), "VISITOR_URL") == Some(visitor)
    && (Get(Read(conf), "DISPLAY_MODE") == Some(mode)
        || (mode == "legacy_wall" && Get(Read(conf), "DISPLAY_MODE") == Some("")))
  }

  lemma InForceSays(conf: Option<string>, mode: string, signage: string, visitor: string)
    requires mode != ""
    ensures InForce(Read(conf)) == Target(mode, signage, visitor) <==> Says(conf, mode, signage, visitor)
  {
    DefaultKeysPresent();
    KeysStay(conf, "DISPLAY_MODE");
    KeysStay(conf, "SIGNAGE_URL");
    KeysStay(conf, "VISITOR_URL");
  }

  /** After a heartbeat kiosk.conf says what was assigned; it restarts exactly if it did not say
      so before. */
  lemma AssignmentLands(text: Option<string>, a: Assignment, mode: string, signage: string, visitor: string)
    requires Showing(a, Url(Backend(text), a)) == Target(mode, signage, visitor) && mode != ""
    requires OneLine(Url(Backend(text), a)) && !HasQuote(Url(Backend(text), a))
    ensures
      var (after, restart) := ApplyAssignment(text, a);
      Says(after, mode, signage, visitor) && (restart <==> !Says(text, mode, signage, visitor))
  {
    OneHeartbeat(text, a);
    RereadClean(Url(Backend(text), a));
    InForceSays(text, mode, signage, visitor);
    InForceSays(ApplyAssignment(text, a).0, mode, signage, visitor);
  }

  /** A signage assignment, with any slashes around its parts. */
  lemma SignageLands(text: Option<string>, b: string, t: string, s1: string, slug: string, s2: string,
                     k1: string, key: string, k2: string)
    requires BackendSetting(text) == b + t && b != "" && b[|b| - 1] != '/' && Slashes(t)
    requires Bare(slug) && Slashes(s1) && Slashes(s2) && Bare(key) && Slashes(k1) && Slashes(k2)
    requires OneLine(b + "/" + slug + "/beacon/d/" + key) && !HasQuote(b + "/" + slug + "/beacon/d/" + key)
    ensures
      var (after, restart) := ApplyAssignment(text, Assigned("signage", s1 + slug + s2, k1 + key + k2));
      var u := b + "/" + slug + "/beacon/d/" + key;
      && Get(Read(after), "DISPLAY_MODE") == Some("signage") && Get(Read(after), "SIGNAGE_URL") == Some(u)
      && Get(Read(after), "VISITOR_URL") == Some("") && (restart <==> !Says(text, "signage", u, ""))
  {
    BeaconUrlSpelt(text, b, t, s1, slug, s2, k1, key, k2);
    AssignmentLands(text, Assigned("signage", s1 + slug + s2, k1 + key + k2),
                    "signage", b + "/" + slug + "/beacon/d/" + key, "");
  }

  /** A visitor assignment. */
  lemma VisitorLands(text: Option<string>, b: string, t: string, s1: string, slug: string, s2: string, k: string)
    requires BackendSetting(text) == b + t && b != "" && b[|b| - 1] != '/' && Slashes(t)
    requires Bare(slug) && Slashes(s1) && Slashes(s2)
    requires OneLine(b + "/" + slug + "/visitor-kiosk") && !HasQuote(b + "/" + slug + "/visitor-kiosk")
    ensures
      var (after, restart) := ApplyAssignment(text, Assigned("visitor", s1 + slug + s2, k));
      var u := b + "/" + slug + "/visitor-kiosk";
      && Get(Read(after), "DISPLAY_MODE") == Some("visitor") && Get(Read(after), "VISITOR_URL") == Some(u)
      && Get(Read(after), "SIGNAGE_URL") == Some("") && (restart <==> !Says(text, "visitor", "", u))
  {
    VisitorUrlSpelt(text, b, t, s1, slug, s2, k);
    AssignmentLands(text, Assigned("visitor", s1 + slug + s2, k), "visitor", "", b + "/" + slug + "/visitor-kiosk");
  }

  /** Nothing to show: no assignment, another mode, or a part of the URL that is empty but for
      slashes. */
  predicate NothingAssigned(text: Option<string>, a: Assignment) {
    || a.Unassigned? || (a.mode != "signage" && a.mode != "visitor") || Slashes(a.slug)
    || (a.mode == "signage" && Slashes(a.publicKey)) || Slashes(BackendSetting(text))
  }

  lemma LegacyWallLands(text: Option<string>, a: Assignment)
    requires NothingAssigned(text, a)
    ensures
      var (after, restart) := ApplyAssignment(text, a);
      Says(after, "legacy_wall", "", "") && (restart <==> !Says(text, "legacy_wall", "", ""))
  {
    if a.Assigned? {
      if Slashes(a.slug) { StripAll(a.slug); }
      if Slashes(a.publicKey) { StripAll(a.publicKey); }
    }
    if Slashes(BackendSetting(text)) { StripAll(BackendSetting(text)); }
    AssignmentLands(text, a, "legacy_wall", "", "");
  }

  // ---- The layout ----

  /** A map of outputs makes the layout independent; without one an independent layout goes back
      to mirror and the content goes, and any other stays. */
  lemma LayoutLands(f: Files, items: seq<Item>, unlinked: bool)
    ensures
      var (f', restart) := ApplyOutputs(f, items, unlinked);
      var was := Get(Read(f.conf), "DISPLAY_LAYOUT");
      && (items != [] ==> Get(Read(f'.conf), "DISPLAY_LAYOUT") == Some("independent"))
      && (items == [] && was == Some("independent") ==>
            restart && Get(Read(f'.conf), "DISPLAY_LAYOUT") == Some("mirror")
            && f'.content == if unlinked then None else f.content)
      && (items == [] && was != Some("independent") ==> f' == f && !restart)
  {
    LayoutWritten(f.conf, "independent");
    LayoutWritten(f.conf, "mirror");
  }

  lemma LayoutWritten(conf: Option<string>, layout: string)
    requires layout == "independent" || layout == "mirror"
    ensures Get(Read(WithLayout(conf, layout)), "DISPLAY_LAYOUT") == Some(layout)
  {
    LayoutWritable(layout);
    ReadAfterWrite(conf, [Setting(LAYOUT, layout)], LAYOUT);
    RereadClean(layout);
  }

  // ---- The content ----

  /** What an output shows, spelt out. */
  ghost predicate Shows(text: Option<string>, o: Output, e: Entry)
    requires o.Output?
  {
    && e.touch == o.touch
    && (o.mode == "url" && ("http://" <= o.url || "https://" <= o.url) ==> e.mode == "url" && e.url == o.url)
    && (o.mode == "url" && !("http://" <= o.url) && !("https://" <= o.url) ==> e.mode == "legacy_wall" && e.url == "")
    && (o.mode != "url" && o.mode != "signage" ==> e.mode == "legacy_wall" && e.url == "")
    && (o.mode == "signage" && (Slashes(o.slug) || Slashes(o.publicKey) || Slashes(BackendSetting(text))) ==>
          e.mode == "legacy_wall" && e.url == "")
  }

  /** Every output of a map is in the stored content, under its own name, showing what it was
      assigned. */
  lemma OutputLands(f: Files, items: seq<Item>, unlinked: bool, i: nat)
    requires i < |items| && DistinctNames(items) && items[i].output.Output?
    ensures
      var content := ApplyOutputs(f, items, unlinked).0.content;
      && content.Some? && items[i].name in content.value
      && Shows(f.conf, items[i].output, content.value[items[i].name])
  {
    OutputsRestartExactly(f, items, unlinked);
    var o := items[i].output;
    assert Provides(items, i, items[i].name, Backend(f.conf), EntryOf(Backend(f.conf), o));
    ContentHoldsEveryOutput(Backend(f.conf), items, items[i].name, EntryOf(Backend(f.conf), o));
    if Slashes(o.slug) { StripAll(o.slug); }
    if Slashes(o.publicKey) { StripAll(o.publicKey); }
    if Slashes(BackendSetting(f.conf)) { StripAll(BackendSetting(f.conf)); }
  }

  lemma SignageOutputLands(f: Files, items: seq<Item>, unlinked: bool, i: nat, b: string, t: string,
                           s1: string, slug: string, s2: string, k1: string, key: string, k2: string)
    requires i < |items| && DistinctNames(items) && items[i].output.Output? && items[i].output.mode == "signage"
    requires items[i].output.slug == s1 + slug + s2 && items[i].output.publicKey == k1 + key + k2
    requires BackendSetting(f.conf) == b + t && b != "" && b[|b| - 1] != '/' && Slashes(t)
    requires Bare(slug) && Slashes(s1) && Slashes(s2) && Bare(key) && Slashes(k1) && Slashes(k2)
    ensures
      var content := ApplyOutputs(f, items, unlinked).0.content;
      && content.Some? && items[i].name in content.value
      && content.value[items[i].name] == Entry("signage", b + "/" + slug + "/beacon/d/" + key, items[i].output.touch)
  {
    OutputLands(f, items, unlinked, i);
    BeaconUrlSpelt(f.conf, b, t, s1, slug, s2, k1, key, k2);
    TargetShowsUrl(Backend(f.conf), Assigned("signage", s1 + slug + s2, k1 + key + k2));
    var e := EntryOf(Backend(f.conf), items[i].output);
    assert Provides(items, i, items[i].name, Backend(f.conf), e);
    ContentHoldsEveryOutput(Backend(f.conf), items, items[i].name, e);
  }
}
