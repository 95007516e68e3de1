/** The heartbeat reconcilers: they compare what kiosk.conf and display-content.json say
    with what the backend wants, and restart the kiosk on a difference. */
module Heartbeat {
  import opened Basics
  import opened ConfigText
  import opened ConfigFile

  // ---- URLs ----

  predicate IsSlash(c: char) { c == '/' }

  function VisitorUrl(backend: string, slug: string): string {
    var (b, s) := (TrimRight(backend, IsSlash), Trim(slug, IsSlash));
    if b == "" || s == "" then "" else b + "/" + s + "/visitor-kiosk"
  }

  function BeaconUrl(backend: string, slug: string, publicKey: string): string {
    var (b, s, k) := (TrimRight(backend, IsSlash), Trim(slug, IsSlash), Trim(publicKey, IsSlash));
    if b == "" || s == "" || k == "" then "" else b + "/" + s + "/beacon/d/" + k
  }

  // ---- Reading settings with Python's `or` ----

  /** `cfg.get(k) or fallback`: an empty value counts as missing. */
  function Or(d: Dict, k: string, fallback: string): string {
    var v := Get(d, k);
    if v.None? || v.value == "" then fallback else v.value
  }

  const BACKEND := "BLUEBIRD_BACKEND"
  const MODE := "DISPLAY_MODE"
  const SIGNAGE := "SIGNAGE_URL"
  const VISITOR := "VISITOR_URL"
  const LAYOUT := "DISPLAY_LAYOUT"

  // ---- The single display assignment ----

  /** `display_assignment`: null, not a dict, or a dict whose missing fields are "". */
  datatype Assignment = Unassigned | Assigned(mode: string, slug: string, publicKey: string)

  datatype Target = Target(mode: string, signage: string, visitor: string)

  function TargetOf(backend: string, a: Assignment): Target {
    if a.Assigned? && a.mode == "signage" then
      var url := BeaconUrl(backend, a.slug, a.publicKey);
      Target(if url != "" then "signage" else "legacy_wall", url, "")
    else if a.Assigned? && a.mode == "visitor" then
      var url := VisitorUrl(backend, a.slug);
      Target(if url != "" then "visitor" else "legacy_wall", "", url)
    else Target("legacy_wall", "", "")
  }

  function InForce(d: Dict): Target {
    Target(Or(d, MODE, "legacy_wall"), Or(d, SIGNAGE, ""), Or(d, VISITOR, ""))
  }

  function Backend(text: Option<string>): string {
    Or(Read(text), BACKEND, "")
  }

  function Settings(t: Target): seq<Setting> {
    [Setting(MODE, t.mode), Setting(SIGNAGE, t.signage), Setting(VISITOR, t.visitor)]
  }

  /** The file afterwards, and whether a restart is requested. */
  function ApplyAssignment(text: Option<string>, a: Assignment): (Option<string>, bool) {
    var t := TargetOf(Backend(text), a);
    if InForce(Read(text)) == t then (text, false) else (Some(Write(text, Settings(t))), true)
  }

  // ---- Per-output assignments ----

  datatype Output = NotADict | Output(mode: string, slug: string, publicKey: string, url: string, touch: bool)

  datatype Item = Item(name: string, output: Output)

  datatype Entry = Entry(mode: string, url: string, touch: bool)

  type Content = map<string, Entry>

  predicate WebUrl(u: string) {
    "http://" <= u || "https://" <= u
  }

  function EntryOf(backend: string, o: Output): Entry
    requires o.Output?
  {
    if o.mode == "signage" then
      var url := BeaconUrl(backend, o.slug, o.publicKey);
      Entry(if url != "" then "signage" else "legacy_wall", url, o.touch)
    else if o.mode == "url" && WebUrl(o.url) then Entry("url", o.url, o.touch)
    else Entry("legacy_wall", "", o.touch)
  }

  /** The content for the items of a dict, in its order. */
  function ContentOf(backend: string, items: seq<Item>): Content {
    if items == [] then map[]
    else
      var (rest, last) := (ContentOf(backend, items[..|items| - 1]), items[|items| - 1]);
      if last.output.Output? then rest[last.name := EntryOf(backend, last.output)] else rest
  }

  /** What session start depends on: which outputs there are and which take touch. */
  function Shape(c: Content): map<string, bool> {
    map n | n in c :: c[n].touch
  }

  /** kiosk.conf and display-content.json. */
  datatype Files = Files(conf: Option<string>, content: Option<Content>)

  function Layout(conf: Option<string>): string {
    Or(Read(conf), LAYOUT, "mirror")
  }

  function WithLayout(conf: Option<string>, layout: string): Option<string> {
    Some(Write(conf, [Setting(LAYOUT, layout)]))
  }

  /** `items` is empty for a map that is empty, null or not a dict. `unlinked` says whether
      removing the content file works. */
  function ApplyOutputs(f: Files, items: seq<Item>, unlinked: bool): (Files, bool) {
    var independent := Layout(f.conf) == "independent";
    if items != [] then
      var content := ContentOf(Backend(f.conf), items);
      if independent && f.content == Some(content) then (f, false)
      else if independent && f.content.Some? && Shape(f.content.value) == Shape(content)
      then (f.(content := Some(content)), false)
      else (Files(WithLayout(f.conf, "independent"), Some(content)), true)
    else if independent then
      (Files(WithLayout(f.conf, "mirror"), if unlinked then None else f.content), true)
    else (f, false)
  }

  /** What a bearer heartbeat's reply holds of the two kinds of assignment; None is a key that
      was not sent. */
  datatype Reply = Reply(assignment: Option<Assignment>, outputs: Option<seq<Item>>)

  /** The single assignment first, then the outputs, on the same kiosk.conf; which restarted. */
  function Beat(f: Files, r: Reply, unlinked: bool): (Files, bool, bool) {
    var (conf, single) := if r.assignment.Some? then ApplyAssignment(f.conf, r.assignment.value) else (f.conf, false);
    var f1 := f.(conf := conf);
    var (f2, perOutput) := if r.outputs.Some? then ApplyOutputs(f1, r.outputs.value, unlinked) else (f1, false);
    (f2, single, perOutput)
  }

  class HeartbeatService {
    const conf: KioskConf
    var content: Option<Content>
    var restarts: nat

    constructor (conf: KioskConf, content: Option<Content>)
      ensures this.conf == conf && this.content == content && restarts == 0
    {
      this.conf, this.content, this.restarts := conf, content, 0;
    }

    method ApplyDisplayAssignment(a: Assignment)
      modifies this`restarts, conf
      ensures (conf.text, restarts > old(restarts)) == ApplyAssignment(old(conf.text), a)
      ensures old(restarts) <= restarts <= old(restarts) + 1
    {
      var cfg := conf.ReadConfig();
      var backend := Or(cfg, BACKEND, "");
      var newSignage, newVisitor, newMode := "", "", "legacy_wall";
      if a.Assigned? && a.mode == "signage" {
        newSignage := BeaconUrl(backend, a.slug, a.publicKey);
        newMode := if newSignage != "" then "signage" else "legacy_wall";
      } else if a.Assigned? && a.mode == "visitor" {
        newVisitor := VisitorUrl(backend, a.slug);
        newMode := if newVisitor != "" then "visitor" else "legacy_wall";
      }
      var curMode, curSignage, curVisitor := Or(cfg, MODE, "legacy_wall"), Or(cfg, SIGNAGE, ""), Or(cfg, VISITOR, "");
      if newMode == curMode && newSignage == curSignage && newVisitor == curVisitor {
        return;
      }
      conf.WriteConfig(Settings(Target(newMode, newSignage, newVisitor)));
      restarts := restarts + 1;
    }

    method BuildContent(backend: string, items: seq<Item>) returns (c: Content)
      ensures c == ContentOf(backend, items)
    {
      c := map[];
      for i := 0 to |items|
        invariant c == ContentOf(backend, items[..i])
      {
        assert items[..i + 1][..i] == items[..i];
        var Item(name, o) := items[i];
        if o.Output? {
          c := c[name := EntryOf(backend, o)];
        }
      }
      assert items[..|items|] == items;
    }

    method ApplyOutputAssignments(items: seq<Item>, unlinked: bool)
      modifies this, conf
      ensures (Files(conf.text, content), restarts > old(restarts))
           == ApplyOutputs(Files(old(conf.text), old(content)), items, unlinked)
      ensures old(restarts) <= restarts <= old(restarts) + 1
    {
      var cfg := conf.ReadConfig();
      var layout := Or(cfg, LAYOUT, "mirror");
      if items != [] {
        var wanted := BuildContent(Or(cfg, BACKEND, ""), items);
        if layout == "independent" && content == Some(wanted) {
          return;
        }
        var urlsOnly := layout == "independent" && content.Some? && SameShape(content.value, wanted);
        content := Some(wanted);
        if urlsOnly {
          return;
        }
        conf.WriteConfig([Setting(LAYOUT, "independent")]);
        restarts := restarts + 1;
      } else if layout == "independent" {
        if unlinked {
          content := None;
        }
        conf.WriteConfig([Setting(LAYOUT, "mirror")]);
        restarts := restarts + 1;
      }
    }

    /** The end of a successful heartbeat. */
    method HandleReply(r: Reply, unlinked: bool) returns (single: bool, perOutput: bool)
      modifies this, conf
      ensures (Files(conf.text, content), single, perOutput) == Beat(Files(old(conf.text), old(content)), r, unlinked)
      ensures restarts == old(restarts) + (if single then 1 else 0) + (if perOutput then 1 else 0)
    {
      var start := restarts;
      if r.assignment.Some? {
        ApplyDisplayAssignment(r.assignment.value);
      }
      var middle := restarts;
      if r.outputs.Some? {
        ApplyOutputAssignments(r.outputs.value, unlinked);
      }
      single, perOutput := middle > start, restarts > middle;
    }
  }

  /** Same key set, and the same touch flag for each key. */
  predicate SameShape(a: Content, b: Content)
    ensures SameShape(a, b) <==> Shape(a) == Shape(b)
  {
    assert Shape(a).Keys == a.Keys && Shape(b).Keys == b.Keys;
    assert (a.Keys == b.Keys && forall n | n in a :: a[n].touch == b[n].touch) ==> Shape(a) == Shape(b);
    assert Shape(a) == Shape(b) ==> forall n | n in a :: Shape(a)[n] == Shape(b)[n];
    a.Keys == b.Keys && forall n | n in a :: a[n].touch == b[n].touch
  }
}
