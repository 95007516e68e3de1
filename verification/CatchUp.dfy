/** From a backlog to a complete wall: whole ticks drain the missing blobs, and the slideshow
    ends as exactly what the backend publishes. */
module CatchUp {
  import opened Basics
  import opened LocalCache
  import opened SyncEngine
  import opened BackgroundVideos
  import opened MediaCache
  import opened MirrorAgreement
  import opened FetchBudget
  import opened Strays
  import opened KilledTicks
  import opened Renderer

  // ---- A backlog drains ----

  /** The pull succeeds, leaves the mirror as it is and drops no record of a mirrored id. */
  ghost predicate Steady(d: Device, w: World) {
    && Pulls(d, w).Pulled? && AfterPull(d, w).db.mirror == d.db.mirror
    && forall i | i in InMirror(d.db.mirror) :: !TickDrops(d, w, i)
  }

  ghost predicate AllSteady(d: Device, slug: string, ws: seq<World>) {
    forall k | 0 <= k < |ws| :: Steady(Ticks(d, slug, ws[..k]), ws[k])
  }

  ghost predicate ServesAll(m: Mirror, serve: Id -> BlobReply) {
    forall i | i in InMirror(m) :: ServesBytes(serve(i))
  }

  function Left(n: nat, done: nat): nat {
    if done < n then n - done else 0
  }

  lemma MissingCounted(d: Device, serve: Id -> BlobReply)
    requires ServesAll(d.db.mirror, serve)
    ensures Successes(d, MediaIds(d.db.mirror), serve) == |Missing(d)|
  {
    var ids := MediaIds(d.db.mirror);
    MediaIdsListMirror(d.db.mirror);
    SuccessesCounted(d, ids, serve);
    assert (set i | i in ids && !Cached(d, i) && CountsAsFetched(serve(i))) == Missing(d);
  }

  lemma PassShrinks(d: Device, stuck: set<Path>, limit: nat, serve: Id -> BlobReply)
    requires OwnMedia(d) && ServesAll(d.db.mirror, serve)
    ensures |Missing(FetchPass(d, stuck, limit, serve).0)| == Left(|Missing(d)|, limit)
  {
    PassIsExact(d, stuck, limit, serve);
    FetchedAgainstCached(d, stuck, limit, serve);
    NewlyCachedExactly(d, stuck, limit, serve);
    MissingCounted(d, serve);
    AllServed(d, stuck, limit, serve);
  }

  lemma AllServed(d: Device, stuck: set<Path>, limit: nat, serve: Id -> BlobReply)
    requires ServesAll(d.db.mirror, serve)
    ensures Unmodified(d, limit, serve) == {} && Leftovers(d, stuck, limit, serve) == {}
  {
    MediaIdsListMirror(d.db.mirror);
    forall i ensures i !in Unmodified(d, limit, serve) && i !in Leftovers(d, stuck, limit, serve) {
      WhichSets(d, stuck, limit, serve, i);
      WinnersAreAttempted(d, MediaIds(d.db.mirror), limit, serve, i);
    }
  }

  lemma SteadyPullMissesNothingNew(d: Device, w: World)
    requires OwnMedia(d) && Steady(d, w)
    ensures
      var pulled := AfterPull(d, w);
      OwnMedia(pulled) && Missing(pulled) == Missing(d) && pulled.db.videos == d.db.videos
  {
    PullCachesNothing(d, w, 0);
    forall i | i in InMirror(d.db.mirror) ensures Cached(AfterPull(d, w), i) <==> Cached(d, i) {
      PullDropsExactly(d, w, i);
      SameBlobSameCached(d, AfterPull(d, w), i);
    }
  }

  lemma VideosMissNothingNew(d: Device, slug: string, w: World)
    requires OwnMedia(d) && Own(d)
    ensures
      var d' := SyncVideos(d, w.stuck, slug, w.backgrounds, w.wall, w.slides);
      OwnMedia(d') && Own(d') && Missing(d') == Missing(d) && d'.db.mirror == d.db.mirror
  {
    VideosStayInTheirLane(d, slug, w);
    var d' := SyncVideos(d, w.stuck, slug, w.backgrounds, w.wall, w.slides);
    forall i ensures Cached(d', i) <==> Cached(d, i) {
      SameBlobSameCached(d, d', i);
    }
  }

  /** A steady tick whose downloads all succeed takes FETCH_LIMIT off the backlog. */
  lemma TickShrinks(d: Device, slug: string, w: World)
    requires OwnMedia(d) && Own(d) && Steady(d, w) && ServesAll(d.db.mirror, w.media)
    ensures
      var d' := Tick(d, slug, w);
      && OwnMedia(d') && Own(d') && d'.db.mirror == d.db.mirror
      && |Missing(d')| == Left(|Missing(d)|, 50)
  {
    var pulled := AfterPull(d, w);
    var passed := FetchPass(pulled, w.stuck, FETCH_LIMIT, w.media).0;
    var synced := SyncVideos(passed, w.stuck, slug, w.backgrounds, w.wall, w.slides);
    SteadyPullMissesNothingNew(d, w);
    PassIsExact(pulled, w.stuck, FETCH_LIMIT, w.media);
    PassShrinks(pulled, w.stuck, FETCH_LIMIT, w.media);
    VideosMissNothingNew(passed, slug, w);
    FlushMissesNothingNew(synced, w);
    assert Tick(d, slug, w) == Flush(synced, EVENT_BATCH, w.post);
  }

  lemma FlushMissesNothingNew(d: Device, w: World)
    requires OwnMedia(d) && Own(d)
    ensures
      var d' := Flush(d, EVENT_BATCH, w.post);
      OwnMedia(d') && Own(d') && Missing(d') == Missing(d) && d'.db.mirror == d.db.mirror
  {
    forall i ensures Cached(Flush(d, EVENT_BATCH, w.post), i) <==> Cached(d, i) {
    }
  }

  lemma SteadyShorter(d: Device, slug: string, ws: seq<World>)
    requires ws != [] && AllSteady(d, slug, ws)
    ensures AllSteady(d, slug, ws[..|ws| - 1]) && Steady(Ticks(d, slug, ws[..|ws| - 1]), ws[|ws| - 1])
  {
    var before := ws[..|ws| - 1];
    forall k | 0 <= k < |before| ensures Steady(Ticks(d, slug, before[..k]), before[k]) {
      assert before[..k] == ws[..k] && before[k] == ws[k];
    }
  }

  /** With the mirror steady and every blob served, k whole ticks leave max(0, n - 50 k) of n
      missing ids, so ceil(n / 50) ticks leave none. */
  lemma {:induction false} BacklogDrains(d: Device, slug: string, ws: seq<World>)
    requires OwnMedia(d) && Own(d)
    requires AllSteady(d, slug, ws) && forall k | 0 <= k < |ws| :: ServesAll(d.db.mirror, ws[k].media)
    ensures
      var d' := Ticks(d, slug, ws);
      && OwnMedia(d') && Own(d') && d'.db.mirror == d.db.mirror
      && |Missing(d')| == Left(|Missing(d)|, 50 * |ws|)
  {
    if ws != [] {
      var before, last := ws[..|ws| - 1], ws[|ws| - 1];
      SteadyShorter(d, slug, ws);
      BacklogDrains(d, slug, before);
      TickShrinks(Ticks(d, slug, before), slug, last);
    }
  }

  // ---- An honest backend keeps the mirror steady ----

  lemma {:induction false} DropsNeedATombstone(m: Mirror, tables: seq<Table>, i: Id) returns (k: nat)
    requires Drops(m, tables, i)
    ensures k < |tables| && tables[k].name == MEDIA_TABLE && Tombstoned(tables[k].rows, i)
    decreases |tables|
  {
    k := 0;
    if !(tables[0].name == MEDIA_TABLE && Tombstoned(tables[0].rows, i)) {
      k := DropsNeedATombstone(AfterRows(m, tables[0].name, tables[0].rows), tables[1..], i);
      k := k + 1;
    }
  }

  /** While nothing is edited, a successful pull from a mirror that is exact leaves it so, and
      tombstones nothing the mirror holds. */
  lemma HonestPullIsSteady(l: Link, w: World, clock: Clock)
    requires clock("") == 0 && InStep(l, clock) && l.d.db.mirror == LiveRows(l.b)
    requires KeepsContract(l, w, clock) && Pulls(l.d, w).Pulled?
    ensures Steady(l.d, w)
  {
    TickStaysInStep(l, w, clock);
    forall i | TickDrops(l.d, w, i) ensures i !in InMirror(l.d.db.mirror) {
      var tables := TablesOf(w);
      var k := DropsNeedATombstone(l.d.db.mirror, tables, i);
      var j :| 0 <= j < |tables[k].rows| && tables[k].rows[j].deletedAt != "" && tables[k].rows[j].id == RowId(i);
      assert Current(l.b, tables[k].name, tables[k].rows[j]);
      forall key | key in LiveRows(l.b) && key.table == MEDIA_TABLE ensures key.id != i {
        assert key == Key(MEDIA_TABLE, key.id);
      }
    }
  }

  // ---- The wall catches up ----

  /** `left` is what a kill at some point of the tick leaves. */
  ghost predicate LeftByKill(d: Device, slug: string, w: World, left: Device) {
    exists at :: Possible(d, slug, w, at) && Killed(d, slug, w, at) == left
  }

  ghost predicate Real(l: Link, slug: string, s: Step) {
    match s
    case Kill(w, _, left) => LeftByKill(l.d, slug, w, left)
    case KillLate(w, left) => LeftByKill(l.d, slug, w, left)
    case _ => true
  }

  ghost predicate AllReal(l: Link, slug: string, steps: seq<Step>) {
    forall i | 0 <= i < |steps| :: Real(After(l, slug, steps[..i]), slug, steps[i])
  }

  lemma {:induction false} RunStaysUsable(l: Link, slug: string, steps: seq<Step>)
    requires Usable(l.d) && Own(l.d) && AllReal(l, slug, steps)
    ensures Usable(After(l, slug, steps).d) && Own(After(l, slug, steps).d)
  {
    if steps != [] {
      var before, s := steps[..|steps| - 1], steps[|steps| - 1];
      forall i | 0 <= i < |before| ensures Real(After(l, slug, before[..i]), slug, before[i]) {
        assert before[..i] == steps[..i];
      }
      RunStaysUsable(l, slug, before);
      StepStaysUsable(After(l, slug, before), slug, s);
    }
  }

  lemma StepStaysUsable(l: Link, slug: string, s: Step)
    requires Usable(l.d) && Own(l.d) && Real(l, slug, s)
    ensures Usable(Next(l, slug, s).d) && Own(Next(l, slug, s).d)
  {
    match s
    case Edit(_, _, _) =>
    case Run(w) => TickStaysUsable(l.d, slug, w);
    case Kill(w, _, left) =>
      var at :| Possible(l.d, slug, w, at) && Killed(l.d, slug, w, at) == left;
      KillStaysUsable(l.d, slug, w, at);
    case KillLate(w, left) =>
      var at :| Possible(l.d, slug, w, at) && Killed(l.d, slug, w, at) == left;
      KillStaysUsable(l.d, slug, w, at);
  }

  /** A tick during which the pull succeeds and every blob is served. */
  ghost predicate QuietAt(l: Link, w: World, clock: Clock) {
    KeepsContract(l, w, clock) && Pulls(l.d, w).Pulled? && ServesAll(LiveRows(l.b), w.media)
  }

  /** Such ticks, with the backend not edited in between. */
  ghost predicate Quiet(l: Link, slug: string, ws: seq<World>, clock: Clock) {
    forall k | 0 <= k < |ws| :: QuietAt(l.(d := Ticks(l.d, slug, ws[..k])), ws[k], clock)
  }

  lemma QuietTick(l: Link, slug: string, w: World, clock: Clock)
    requires clock("") == 0 && InStep(l, clock) && l.d.db.mirror == LiveRows(l.b)
    requires QuietAt(l, w, clock)
    ensures Steady(l.d, w)
    ensures
      var now := l.(d := Tick(l.d, slug, w));
      InStep(now, clock) && now.d.db.mirror == LiveRows(l.b)
  {
    HonestPullIsSteady(l, w, clock);
    StepStaysInStep(l, slug, Run(w), clock);
  }

  lemma QuietBefore(l: Link, slug: string, ws: seq<World>, clock: Clock)
    requires ws != [] && Quiet(l, slug, ws, clock)
    ensures Quiet(l, slug, ws[..|ws| - 1], clock)
    ensures QuietAt(l.(d := Ticks(l.d, slug, ws[..|ws| - 1])), ws[|ws| - 1], clock)
  {
    var before := ws[..|ws| - 1];
    forall k | 0 <= k < |before| ensures QuietAt(l.(d := Ticks(l.d, slug, before[..k])), before[k], clock) {
      assert before[..k] == ws[..k] && before[k] == ws[k];
    }
  }

  lemma SteadyLonger(d: Device, slug: string, ws: seq<World>)
    requires ws != [] && AllSteady(d, slug, ws[..|ws| - 1]) && Steady(Ticks(d, slug, ws[..|ws| - 1]), ws[|ws| - 1])
    ensures AllSteady(d, slug, ws)
  {
    var before, n := ws[..|ws| - 1], |ws| - 1;
    forall k | 0 <= k < |ws| ensures Steady(Ticks(d, slug, ws[..k]), ws[k]) {
      if k == n {
        assert ws[..k] == before && ws[k] == ws[n];
      } else {
        assert before[..k] == ws[..k] && before[k] == ws[k];
        assert Steady(Ticks(d, slug, before[..k]), before[k]);
      }
    }
  }

  lemma {:induction false} QuietTicksAreSteady(l: Link, slug: string, ws: seq<World>, clock: Clock)
    requires clock("") == 0 && InStep(l, clock) && l.d.db.mirror == LiveRows(l.b) && Quiet(l, slug, ws, clock)
    ensures
      var now := l.(d := Ticks(l.d, slug, ws));
      InStep(now, clock) && now.d.db.mirror == LiveRows(l.b)
    ensures AllSteady(l.d, slug, ws)
  {
    if ws != [] {
      QuietBefore(l, slug, ws, clock);
      QuietTicksAreSteady(l, slug, ws[..|ws| - 1], clock);
      QuietTick(l.(d := Ticks(l.d, slug, ws[..|ws| - 1])), slug, ws[|ws| - 1], clock);
      SteadyLonger(l.d, slug, ws);
    }
  }

  /** End to end. Start from an empty cache and let anything happen: edits, failed pulls,
      failed downloads, kills at any point. Once one pull has succeeded, ceil(n / 50) quiet
      ticks later, n being the blobs still missing, the wall shows exactly the backend's
      live media that are not unpublished. */
  lemma WallCatchesUp(files: Files, b: Backend, slug: string, steps: seq<Step>, ws: seq<World>, clock: Clock,
                      s: seq<Item>, id: Id)
    requires clock("") == 0 && ValidBackend(b)
    requires AllAllowed(Link(Device(EMPTY_DB, files), b), slug, steps, clock)
    requires AllReal(Link(Device(EMPTY_DB, files), b), slug, steps)
    requires steps != [] && steps[|steps| - 1].Run?
    requires Pulls(After(Link(Device(EMPTY_DB, files), b), slug, steps[..|steps| - 1]).d,
                   steps[|steps| - 1].world).Pulled?
    requires
      var caught := After(Link(Device(EMPTY_DB, files), b), slug, steps);
      && Quiet(caught, slug, ws, clock) && |Missing(caught.d)| <= 50 * |ws|
      && IsSlideshow(Ticks(caught.d, slug, ws).db, s)
    ensures
      var rows := After(Link(Device(EMPTY_DB, files), b), slug, steps).b.rows;
      var k := Key("lw_media", id);
      (exists x :: x in s && x.id == id) <==>
        k in rows && rows[k].row.deletedAt == "" && rows[k].row.published != Some(false)
  {
    var start := Link(Device(EMPTY_DB, files), b);
    var caught := After(start, slug, steps);
    MirrorIsExactAfterEveryPull(files, b, slug, steps, clock);
    RunStaysInStep(start, slug, steps, clock);
    RunStaysUsable(start, slug, steps);
    QuietTicksAreSteady(caught, slug, ws, clock);
    assert forall k | 0 <= k < |ws| :: QuietAt(caught.(d := Ticks(caught.d, slug, ws[..k])), ws[k], clock);
    BacklogDrains(caught.d, slug, ws);
    WallShowsTheBackend(Ticks(caught.d, slug, ws), caught.b, s, id);
  }
}
