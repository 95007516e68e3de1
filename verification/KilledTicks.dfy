/** Ticks that are killed anywhere: every state a tick passes through, and what survives. */
module KilledTicks {
  import opened Basics
  import opened LocalCache
  import opened SyncEngine
  import opened BackgroundVideos
  import opened MediaCache
  import opened MirrorAgreement
  import opened KilledVideos

  /** How far the tick got. */
  datatype Point =
    | Pulling(n: nat)                         // n tables applied and purged, the cursor not written
    | Purging(n: nat, k: nat, ahead: bool)    // table n committed, k of its rows purged, perhaps one record more
    | Fetching(k: nat, half: Half)            // the pull done, k ids handled
    | Syncing(videos: VideoPoint)             // the fetch pass done, the video phase under way, the flush not yet

  function Applied(d: Device, w: World, n: nat): Device
    requires n <= |TablesOf(w)|
  {
    TableSteps(Progress(d, 0, 0, false), w.stuck, TablesOf(w)[..n]).d
  }

  function AfterPull(d: Device, w: World): Device {
    Pull(d, w.stuck, w.manifest).0
  }

  function Fetched(d: Device, w: World, k: nat): (Device, Counts)
    requires k <= |MediaIds(AfterPull(d, w).db.mirror)|
  {
    FetchFrom(AfterPull(d, w), w.stuck, MediaIds(AfterPull(d, w).db.mirror)[..k], FETCH_LIMIT, w.media, ZERO)
  }

  function AfterPass(d: Device, w: World): Device {
    FetchPass(AfterPull(d, w), w.stuck, FETCH_LIMIT, w.media).0
  }

  function WithoutRecord(d: Device, i: Id): Device {
    d.(db := d.db.(media := d.db.media - {i}))
  }

  predicate Purges(d: Device, t: Table) {
    t.name == MEDIA_TABLE && Removals(d.db.mirror, t.name, t.rows) > 0
  }

  /** Table n is committed and its purge has come to row k. */
  function Purged(d: Device, w: World, n: nat, k: nat): Device
    requires n < |TablesOf(w)| && k <= |TablesOf(w)[n].rows|
  {
    PurgeTombstoned(WithRows(Applied(d, w, n), TablesOf(w)[n]), w.stuck, TablesOf(w)[n].rows[..k])
  }

  ghost predicate UsableUpTo(w: World, n: nat)
    requires n <= |TablesOf(w)|
  {
    forall i | 0 <= i < n :: AllUsable(TablesOf(w)[i].rows)
  }

  ghost predicate Possible(d: Device, slug: string, w: World, at: Point) {
    match at
    case Pulling(n) => n <= |TablesOf(w)| && UsableUpTo(w, n)
    case Purging(n, k, ahead) =>
      && n < |TablesOf(w)| && UsableUpTo(w, n + 1) && k <= |TablesOf(w)[n].rows|
      && (k > 0 || ahead ==> Purges(Applied(d, w, n), TablesOf(w)[n]))
      && (ahead ==>
            k < |TablesOf(w)[n].rows| && TablesOf(w)[n].rows[k].deletedAt != "" && TablesOf(w)[n].rows[k].id.RowId?)
    case Fetching(k, half) =>
      && Pulls(d, w).Pulled? && k <= |MediaIds(AfterPull(d, w).db.mirror)|
      && (half.Untouched? || (k < |MediaIds(AfterPull(d, w).db.mirror)| && InterruptsDownload(d, w, k, half)))
    case Syncing(videos) => Pulls(d, w).Pulled? && VideosPossible(AfterPass(d, w), slug, w, videos)
  }

  /** The download of id k is under way and its reply does what `half` says. */
  ghost predicate InterruptsDownload(d: Device, w: World, k: nat, half: Half)
    requires k < |MediaIds(AfterPull(d, w).db.mirror)|
  {
    var id := MediaIds(AfterPull(d, w).db.mirror)[k];
    var (before, c) := Fetched(d, w, k);
    && c.fetched < FETCH_LIMIT && !Cached(before, id) && w.media(id).Reply?
    && (half.RecordGone? ==> w.media(id).code == 404)
    && (half.Torn? ==> w.media(id).code < 400 && w.media(id).code != 304 && half.bytes <= |w.media(id).body|)
  }

  /** What the kill leaves. */
  function Killed(d: Device, slug: string, w: World, at: Point): Device
    requires Possible(d, slug, w, at)
  {
    match at
    case Pulling(n) => Applied(d, w, n)
    case Purging(n, k, ahead) =>
      if ahead then WithoutRecord(Purged(d, w, n, k), TablesOf(w)[n].rows[k].id.n) else Purged(d, w, n, k)
    case Fetching(k, half) => Interrupted(d, w, k, half)
    case Syncing(videos) => VideosKilled(AfterPass(d, w), slug, w, videos)
  }

  function Interrupted(d: Device, w: World, k: nat, half: Half): Device
    requires k <= |MediaIds(AfterPull(d, w).db.mirror)|
    requires half.Untouched? || (k < |MediaIds(AfterPull(d, w).db.mirror)| && InterruptsDownload(d, w, k, half))
  {
    var before := Fetched(d, w, k).0;
    match half
    case Untouched => before
    case RecordGone => WithoutRecord(before, MediaIds(AfterPull(d, w).db.mirror)[k])
    case Torn(bytes) =>
      var id := MediaIds(AfterPull(d, w).db.mirror)[k];
      before.(files := before.files[MediaFile(id) := w.media(id).body[..bytes]])
  }

  // ---- The points of a tick are real: they include where it starts and where it ends ----

  lemma KilledAtTheStart(d: Device, slug: string, w: World)
    ensures Possible(d, slug, w, Pulling(0)) && Killed(d, slug, w, Pulling(0)) == d
  {
    assert TablesOf(w)[..0] == [];
  }

  /** Killed with only the flush to come, a tick is complete but for its events. */
  lemma KilledAtTheEnd(d: Device, slug: string, w: World)
    requires Pulls(d, w).Pulled?
    ensures
      var last := Syncing(LastPoint(AfterPass(d, w), slug, w));
      && Possible(d, slug, w, last)
      && Tick(d, slug, w) == Flush(Killed(d, slug, w, last), EVENT_BATCH, w.post)
  {
    LastPointIsTheEnd(AfterPass(d, w), slug, w);
  }

  // ---- Records keep their files ----

  lemma PurgingStaysUsable(d: Device, stuck: set<Path>, rows: seq<Row>)
    requires Usable(d)
    ensures Usable(PurgeTombstoned(d, stuck, rows)) && PurgeTombstoned(d, stuck, rows).db.videos == d.db.videos
  {
    PurgesTheTombstoned(d, stuck, rows, 0);
    forall i | i in PurgeTombstoned(d, stuck, rows).db.media
      ensures NonEmptyFile(PurgeTombstoned(d, stuck, rows).files, MediaFile(i))
    {
      PurgesTheTombstoned(d, stuck, rows, i);
    }
  }

  lemma PurgedStaysUsable(d: Device, w: World, n: nat, k: nat)
    requires Usable(d) && n < |TablesOf(w)| && k <= |TablesOf(w)[n].rows|
    ensures Usable(Purged(d, w, n, k)) && Purged(d, w, n, k).db.videos == d.db.videos
  {
    StepsStayUsable(Progress(d, 0, 0, false), w.stuck, TablesOf(w)[..n]);
    PurgingStaysUsable(WithRows(Applied(d, w, n), TablesOf(w)[n]), w.stuck, TablesOf(w)[n].rows[..k]);
  }

  lemma FetchedStaysUsable(d: Device, w: World, k: nat)
    requires Usable(d) && k <= |MediaIds(AfterPull(d, w).db.mirror)|
    ensures Usable(Fetched(d, w, k).0) && Fetched(d, w, k).0.db.videos == d.db.videos
  {
    PullStaysUsable(d, w.stuck, w.manifest);
    MediaIdsListMirror(AfterPull(d, w).db.mirror);
    FetchStaysUsable(AfterPull(d, w), w.stuck, MediaIds(AfterPull(d, w).db.mirror)[..k], FETCH_LIMIT, w.media, ZERO);
  }

  lemma SyncingStaysUsable(d: Device, slug: string, w: World, videos: VideoPoint)
    requires Usable(d) && Own(d) && Possible(d, slug, w, Syncing(videos))
    ensures Usable(Killed(d, slug, w, Syncing(videos))) && Own(Killed(d, slug, w, Syncing(videos)))
  {
    PullStaysUsable(d, w.stuck, w.manifest);
    PassStaysUsable(AfterPull(d, w), w.stuck, FETCH_LIMIT, w.media);
    KilledVideosStayInTheirLane(AfterPass(d, w), slug, w, videos);
  }

  /** Wherever a tick is killed, every media record left names its own non-empty file: the
      record goes before the file, and a file is only written where there is no record. */
  lemma KillStaysUsable(d: Device, slug: string, w: World, at: Point)
    requires Usable(d) && Own(d) && Possible(d, slug, w, at)
    ensures Usable(Killed(d, slug, w, at)) && Own(Killed(d, slug, w, at))
  {
    match at
    case Pulling(n) => StepsStayUsable(Progress(d, 0, 0, false), w.stuck, TablesOf(w)[..n]);
    case Purging(n, k, ahead) => PurgedStaysUsable(d, w, n, k);
    case Fetching(k, half) => FetchedStaysUsable(d, w, k);
    case Syncing(videos) => SyncingStaysUsable(d, slug, w, videos);
  }

  // ---- The kills of `MirrorAgreement` are these ----

  /** Whatever the point, mirror and cursor are those of a kill between tables or after the
      pull, the only two kinds the agreement with the backend has to deal with. */
  lemma KillIsBetweenTables(d: Device, slug: string, w: World, at: Point) returns (applied: nat)
    requires Possible(d, slug, w, at)
    ensures applied <= |TablesOf(w)|
    ensures
      var left := Killed(d, slug, w, at);
      if at.Pulling? || at.Purging?
      then left.db.mirror == MirrorAfter(d.db.mirror, TablesOf(w)[..applied]) && left.db.cursor == d.db.cursor
           && UsableUpTo(w, applied)
      else left.db.mirror == AfterPull(d, w).db.mirror && left.db.cursor == AfterPull(d, w).db.cursor
  {
    applied := 0;
    match at
    case Pulling(n) => applied := n; WholeTables(d, w, n);
    case Purging(n, k, _) =>
      applied := n + 1;
      var t := TablesOf(w)[n];
      WholeTables(d, w, n);
      PurgingKeepsMirror(WithRows(Applied(d, w, n), t), w.stuck, t.rows[..k]);
      assert TablesOf(w)[..n + 1] == TablesOf(w)[..n] + [t];
      OneTableMore(d.db.mirror, TablesOf(w)[..n], t);
    case Fetching(k, _) =>
      FetchKeepsMirror(AfterPull(d, w), w.stuck, MediaIds(AfterPull(d, w).db.mirror)[..k], FETCH_LIMIT, w.media, ZERO);
    case Syncing(videos) =>
      KilledVideosKeepMirror(AfterPass(d, w), slug, w, videos);
      FetchKeepsMirror(AfterPull(d, w), w.stuck, MediaIds(AfterPull(d, w).db.mirror), FETCH_LIMIT, w.media, ZERO);
  }

  lemma KilledVideosKeepMirror(d: Device, slug: string, w: World, at: VideoPoint)
    requires VideosPossible(d, slug, w, at)
    ensures
      var d' := VideosKilled(d, slug, w, at);
      d'.db == d.db.(videos := d'.db.videos)
  {
    if HasBackgrounds(slug, w) {
      var b := w.backgrounds.body.value;
      forall k | 0 <= k <= |PARTS| ensures WallSoFar(d, w, k).db == d.db.(videos := WallSoFar(d, w, k).db.videos) {
        if b.wall.None? {
          WallKeepsMirror(d, w.stuck, PARTS[..k]);
        } else {
          PartsKeepMirror(d, w.stuck, None, b.wall.value, PARTS[..k], w.wall, ZERO);
        }
      }
      var wall := WallSoFar(d, w, |PARTS|);
      forall j | 0 <= j <= |b.slides|
        ensures SlidesSoFar(d, w, j).db == d.db.(videos := SlidesSoFar(d, w, j).db.videos)
      {
        SlidesKeepMirror(wall, w.stuck, b.slides[..j], 0, w.slides, ZERO);
      }
      if at.AtSlide? {
        var s := b.slides[at.j];
        PartsKeepMirror(SlidesSoFar(d, w, at.j), w.stuck, Some(s.id.n), s.urls, PARTS[..at.k],
                        p => w.slides(at.j, p), ZERO);
      }
    }
  }

  lemma WholeTables(d: Device, w: World, n: nat)
    requires n <= |TablesOf(w)| && UsableUpTo(w, n)
    ensures Applied(d, w, n).db.mirror == MirrorAfter(d.db.mirror, TablesOf(w)[..n])
    ensures Applied(d, w, n).db.cursor == d.db.cursor
  {
    var tables := TablesOf(w)[..n];
    var m := StepsApplyPrefix(Progress(d, 0, 0, false), w.stuck, tables);
    UsableNeverRaises(Progress(d, 0, 0, false), w.stuck, tables);
    assert tables[..m] == tables;
  }

  lemma {:induction false} UsableNeverRaises(p: Progress, stuck: set<Path>, tables: seq<Table>)
    requires !p.raised && forall i | 0 <= i < |tables| :: AllUsable(tables[i].rows)
    ensures !TableSteps(p, stuck, tables).raised
    decreases |tables|
  {
    if tables != [] {
      assert AllUsable(tables[0].rows);
      UsableNeverRaises(TableStep(p, stuck, tables[0]), stuck, tables[1..]);
    }
  }

  lemma {:induction false} OneTableMore(m: Mirror, tables: seq<Table>, t: Table)
    ensures MirrorAfter(m, tables + [t]) == AfterRows(MirrorAfter(m, tables), t.name, t.rows)
    decreases |tables|
  {
    if tables == [] {
      assert ([] + [t])[1..] == [];
    } else {
      assert (tables + [t])[1..] == tables[1..] + [t] && (tables + [t])[0] == tables[0];
      OneTableMore(AfterRows(m, tables[0].name, tables[0].rows), tables[1..], t);
    }
  }

  // ---- Lives: ticks, whole or killed, one after the other ----

  datatype Turn = Whole(w: World) | Cut(w: World, at: Point)

  ghost predicate CanTake(d: Device, slug: string, t: Turn) {
    t.Cut? ==> Possible(d, slug, t.w, t.at)
  }

  function Take(d: Device, slug: string, t: Turn): Device
    requires CanTake(d, slug, t)
  {
    match t
    case Whole(w) => Tick(d, slug, w)
    case Cut(w, at) => Killed(d, slug, w, at)
  }

  ghost predicate Lives(d: Device, slug: string, turns: seq<Turn>, d': Device)
    decreases |turns|
  {
    if turns == [] then d' == d
    else CanTake(d, slug, turns[0]) && Lives(Take(d, slug, turns[0]), slug, turns[1..], d')
  }

  /** Over any run of ticks, each completed or killed at any point, whatever the backend
      answers and however the disk behaves, every media record names its own existing,
      non-empty file. */
  lemma {:induction false} RecordsSurviveKills(d: Device, slug: string, turns: seq<Turn>, d': Device)
    requires Usable(d) && Own(d) && Lives(d, slug, turns, d')
    ensures Usable(d') && Own(d')
    decreases |turns|
  {
    if turns != [] {
      match turns[0] {
        case Whole(w) => TickStaysUsable(d, slug, w);
        case Cut(w, at) => KillStaysUsable(d, slug, w, at);
      }
      RecordsSurviveKills(Take(d, slug, turns[0]), slug, turns[1..], d');
    }
  }
}
