/** Whole heartbeats: both reconcilers, one after the other, on the same kiosk.conf. */
module WholeBeats {
  import opened Basics
  import opened ConfigText
  import opened ConfigFile
  import opened ConfigLines
  import opened ConfigRoundTrip
  import opened Heartbeat
  import opened DerivedUrls
  import opened RestartProofs

  // ---- When each of the two restarts ----

  lemma RereadIndependent(v: string)
    ensures Reread(v) == "independent" <==> v == "independent"
  {
    assert !HasQuote("independent");
    if HasQuote(v) { RereadGrows(v); } else { RereadClean(v); }
  }

  /** Rewriting the single assignment does not touch the layout. */
  lemma LayoutStays(text: Option<string>, a: Assignment)
    requires OneLine(Url(Backend(text), a))
    ensures Layout(ApplyAssignment(text, a).0) == "independent" <==> Layout(text) == "independent"
  {
    var url := Url(Backend(text), a);
    var after := ApplyAssignment(text, a).0;
    TargetShowsUrl(Backend(text), a);
    if ApplyAssignment(text, a).1 {
      SettingsWritable(a, url);
      LatestOfSettings(Showing(a, url));
      OrAfterPlainWrite(text, Settings(Showing(a, url)), LAYOUT);
      RereadIndependent(Or(Read(text), LAYOUT, ""));
    }
    OrFallback(Read(text), LAYOUT, "mirror");
    OrFallback(Read(after), LAYOUT, "mirror");
  }

  /** Whether a map of outputs needs a restart, read off the files as they are. */
  predicate NeedsOutputRestart(f: Files, items: seq<Item>) {
    if items == [] then Layout(f.conf) == "independent"
    else Layout(f.conf) != "independent" || f.content.None? || Shape(f.content.value) != Touches(items)
  }

  /** A heartbeat restarts for the single assignment exactly when its target is not in force, and
      for the outputs exactly when they need one: what the first reconciler writes does not
      matter to the second. */
  lemma BeatRestartsExactly(f: Files, r: Reply, unlinked: bool)
    requires r.assignment.Some? ==> OneLine(Url(Backend(f.conf), r.assignment.value))
    ensures
      var (_, single, perOutput) := Beat(f, r, unlinked);
      && (single <==> r.assignment.Some?
                      && InForce(Read(f.conf)) != TargetOf(Backend(f.conf), r.assignment.value))
      && (perOutput <==> r.outputs.Some? && NeedsOutputRestart(f, r.outputs.value))
  {
    if r.assignment.Some? {
      LayoutStays(f.conf, r.assignment.value);
    }
    var conf := if r.assignment.Some? then ApplyAssignment(f.conf, r.assignment.value).0 else f.conf;
    if r.outputs.Some? {
      OutputRestartsExactly(f.(conf := conf), r.outputs.value, unlinked);
    }
  }

  lemma OutputRestartsExactly(f: Files, items: seq<Item>, unlinked: bool)
    ensures ApplyOutputs(f, items, unlinked).1 <==> NeedsOutputRestart(f, items)
  {
    if items != [] {
      OutputsRestartExactly(f, items, unlinked);
      ShapeIsTouches(Backend(f.conf), items);
    }
  }

  // ---- The next beat is quiet ----

  /** The write, if any, that a map of outputs leads to. */
  function LayoutWrites(f: Files, items: seq<Item>, unlinked: bool): seq<seq<Setting>> {
    if !ApplyOutputs(f, items, unlinked).1 then []
    else [[Setting(LAYOUT, if items != [] then "independent" else "mirror")]]
  }

  lemma OutputsOnlyWriteLayout(f: Files, items: seq<Item>, unlinked: bool)
    ensures
      var writes := LayoutWrites(f, items, unlinked);
      && ApplyOutputs(f, items, unlinked).0.conf == Rewritten(f.conf, writes) && Writable(writes)
      && LeavesAlone(writes, MODE) && LeavesAlone(writes, SIGNAGE) && LeavesAlone(writes, VISITOR)
      && LeavesAlone(writes, BACKEND)
  {
    var writes := LayoutWrites(f, items, unlinked);
    assert Rewritten(f.conf, []) == f.conf;
    if writes != [] {
      OneLayoutWrite(if items != [] then "independent" else "mirror");
      assert writes[..|writes| - 1] == [];
    }
  }

  lemma OneLayoutWrite(layout: string)
    requires layout == "independent" || layout == "mirror"
    ensures
      var writes := [[Setting(LAYOUT, layout)]];
      && Writable(writes) && LeavesAlone(writes, MODE) && LeavesAlone(writes, SIGNAGE)
      && LeavesAlone(writes, VISITOR) && LeavesAlone(writes, BACKEND)
  {
    HeartbeatKeysDiffer();
    LayoutWritable(layout);
    OtherKeyUntouched(layout);
  }

  lemma OtherKeyUntouched(layout: string)
    ensures forall k | k != LAYOUT :: Latest([Setting(LAYOUT, layout)], k).None?
  {
    assert [Setting(LAYOUT, layout)][1..] == [];
  }

  lemma OutputsSettle(f: Files, items: seq<Item>, unlinked: bool, again: bool)
    requires !HasQuote(Backend(f.conf))
    ensures
      var f' := ApplyOutputs(f, items, unlinked).0;
      Backend(f'.conf) == Backend(f.conf) && ApplyOutputs(f', items, again) == (f', false)
  {
    RereadClean(Backend(f.conf));
    LayoutReadsBack(f.conf, "independent");
    LayoutReadsBack(f.conf, "mirror");
    if items != [] {
      OutputsRestartExactly(f, items, unlinked);
    }
  }

  /** No single quote in the backend setting, and neither a single quote nor a line break in the
      URL that the reply derives from it. */
  predicate Clean(conf: Option<string>, r: Reply) {
    && !HasQuote(Backend(conf))
    && (r.assignment.Some? ==>
          OneLine(Url(Backend(conf), r.assignment.value)) && !HasQuote(Url(Backend(conf), r.assignment.value)))
  }

  /** No restart loop in the whole heartbeat: with a backend setting without a single quote and a
      URL without one and without a line break, the next heartbeat with the same reply changes
      neither file and restarts nothing. */
  lemma NextBeatIsQuiet(f: Files, r: Reply, unlinked: bool, again: bool)
    requires Clean(f.conf, r)
    ensures
      var f' := Beat(f, r, unlinked).0;
      Beat(f', r, again) == (f', false, false) && Backend(f'.conf) == Backend(f.conf)
  {
    var conf := if r.assignment.Some? then ApplyAssignment(f.conf, r.assignment.value).0 else f.conf;
    var f1 := f.(conf := conf);
    var items := if r.outputs.Some? then r.outputs.value else [];
    var writes := if r.outputs.Some? then LayoutWrites(f1, items, unlinked) else [];
    if r.assignment.Some? {
      OneHeartbeat(f.conf, r.assignment.value);
      RereadClean(Backend(f.conf));
    }
    if r.outputs.Some? {
      OutputsOnlyWriteLayout(f1, items, unlinked);
      OutputsSettle(f1, items, unlinked, again);
    }
    if r.assignment.Some? {
      ReapplyingIsQuiet(f.conf, r.assignment.value, writes);
    }
  }

  /** The i-th heartbeat: the files after it and how often it restarted. */
  type Handling = (Files, nat) -> (Files, nat)

  function Repeated(beat: Handling, f: Files, n: nat): (Files, nat) {
    if n == 0 then (f, 0)
    else
      var (before, count) := Repeated(beat, f, n - 1);
      var (after, restarts) := beat(before, n - 1);
      (after, count + restarts)
  }

  lemma {:induction false} SettlesAtOnce(beat: Handling, f: Files, n: nat)
    requires n > 0 && forall i: nat | i > 0 :: beat(beat(f, 0).0, i) == (beat(f, 0).0, 0)
    ensures Repeated(beat, f, n) == beat(f, 0)
  {
    if n == 1 {
      assert Repeated(beat, f, 0) == (f, 0);
    } else {
      SettlesAtOnce(beat, f, n - 1);
    }
  }

  /** The same reply every time; `unlinked` says of each heartbeat whether removing the content
      file works. */
  function SameReply(r: Reply, unlinked: nat -> bool): Handling {
    (f, i) => var (after, single, perOutput) := Beat(f, r, unlinked(i)); (after, One(single) + One(perOutput))
  }

  /** However many heartbeats bring the same reply, only the first changes anything. */
  lemma OnlyTheFirstBeatActs(f: Files, r: Reply, unlinked: nat -> bool, n: nat)
    requires n > 0 && Clean(f.conf, r)
    ensures
      var (after, single, perOutput) := Beat(f, r, unlinked(0));
      Repeated(SameReply(r, unlinked), f, n) == (after, One(single) + One(perOutput))
  {
    forall i: nat | i > 0
      ensures SameReply(r, unlinked)(SameReply(r, unlinked)(f, 0).0, i) == (SameReply(r, unlinked)(f, 0).0, 0)
    {
      LaterBeatIsQuiet(f, r, unlinked, i);
    }
    SettlesAtOnce(SameReply(r, unlinked), f, n);
  }

  lemma LaterBeatIsQuiet(f: Files, r: Reply, unlinked: nat -> bool, i: nat)
    requires Clean(f.conf, r)
    ensures SameReply(r, unlinked)(SameReply(r, unlinked)(f, 0).0, i) == (SameReply(r, unlinked)(f, 0).0, 0)
  {
    NextBeatIsQuiet(f, r, unlinked(0), unlinked(i));
  }
}
