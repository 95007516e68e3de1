/** Video files that are lost: for as long as nothing with bytes answers their URL, a 304 least
    of all, no tick brings them back. */
module LostVideos {
  import opened Basics
  import opened LocalCache
  import opened SyncEngine
  import opened MirrorAgreement
  import FetchBudget

  predicate HasFile(d: Device, s: Slot) {
    NonEmptyFile(d.files, VideoFile(s))
  }

  /** The reply writes nothing: a 304, a refusal, or no reply. */
  predicate WritesNothing(r: BlobReply) {
    r.Reply? ==> FetchBudget.Is304(r) || r.code >= 400
  }

  /** The file at p is as it was, or gone. */
  predicate Kept(files: Files, files': Files, p: Path) {
    p in files' ==> p in files && files'[p] == files[p]
  }

  lemma SaveKeepsOthers(files: Files, stuck: set<Path>, p: Path, body: Bytes, disk: Disk, q: Path)
    requires p != q
    ensures Kept(files, Save(files, stuck, p, body, disk).files, q)
  {
  }

  // ---- One phase after the other ----

  lemma {:induction false} PartsKeepFile(d: Device, stuck: set<Path>, owner: Option<Id>, urls: Urls,
                                         parts: seq<VideoKind>, serve: VideoKind -> BlobReply, c: Counts, s: Slot)
    requires forall k | k in parts && SlotOf(owner, k) == s :: WritesNothing(serve(k))
    ensures Kept(d.files, SyncParts(d, stuck, owner, urls, parts, serve, c).0.files, VideoFile(s))
    decreases |parts|
  {
    if parts != [] {
      var slot := SlotOf(owner, parts[0]);
      assert parts[0] in parts && forall k | k in parts[1..] :: k in parts;
      if UrlOf(urls, parts[0]) == "" {
        PartsKeepFile(PurgePart(d, stuck, slot), stuck, owner, urls, parts[1..], serve, c, s);
      } else {
        var (d', o) := DownloadPart(d, stuck, slot, serve(parts[0]));
        PartsKeepFile(d', stuck, owner, urls, parts[1..], serve, Count(c, o), s);
      }
    }
  }

  /** Every listed entry that is addressed to slot s answers it with nothing. */
  ghost predicate SlidesWriteNothing(slides: seq<Slide>, serve: SlideServe, s: Slot) {
    forall j: nat, k | j < |slides| && PerId(slides[j]) && Rotation(slides[j].id.n, k) == s ::
      WritesNothing(serve(j, k))
  }

  lemma {:induction false} SlidesKeepFile(d: Device, stuck: set<Path>, slides: seq<Slide>, j: nat, serve: SlideServe,
                                          c: Counts, s: Slot)
    requires j <= |slides| && SlidesWriteNothing(slides, serve, s)
    ensures Kept(d.files, SyncSlides(d, stuck, slides, j, serve, c).0.files, VideoFile(s))
    decreases |slides| - j
  {
    if j < |slides| {
      if PerId(slides[j]) {
        var (id, urls) := (slides[j].id.n, slides[j].urls);
        var (d1, c1) := SyncParts(d, stuck, Some(id), urls, PARTS, p => serve(j, p), c);
        PartsKeepFile(d, stuck, Some(id), urls, PARTS, p => serve(j, p), c, s);
        SlidesKeepFile(d1, stuck, slides, j + 1, serve, c1, s);
      } else {
        SlidesKeepFile(d, stuck, slides, j + 1, serve, c, s);
      }
    }
  }

  lemma {:induction false} WallPurgeKeepsFile(d: Device, stuck: set<Path>, parts: seq<VideoKind>, s: Slot)
    ensures Kept(d.files, PurgeWall(d, stuck, parts).files, VideoFile(s))
    decreases |parts|
  {
    if parts != [] {
      WallPurgeKeepsFile(PurgePart(d, stuck, Wall(parts[0])), stuck, parts[1..], s);
    }
  }

  /** In this tick no reply for slot s brings bytes, be it a wall part or a rotation part. */
  ghost predicate NothingFor(w: World, s: Slot) {
    match s
    case Wall(k) => WritesNothing(w.wall(k))
    case Rotation(_, _) =>
      w.backgrounds.Answer? && w.backgrounds.body.Some? ==>
        SlidesWriteNothing(w.backgrounds.body.value.slides, w.slides, s)
  }

  lemma VideosKeepFile(d: Device, slug: string, w: World, s: Slot)
    requires NothingFor(w, s)
    ensures Kept(d.files, SyncVideos(d, w.stuck, slug, w.backgrounds, w.wall, w.slides).files, VideoFile(s))
  {
    if w.backgrounds.Answer? && w.backgrounds.body.Some? {
      var b := w.backgrounds.body.value;
      var d1 := if b.wall.None? then PurgeWall(d, w.stuck, PARTS)
                else SyncParts(d, w.stuck, None, b.wall.value, PARTS, w.wall, ZERO).0;
      WallPurgeKeepsFile(d, w.stuck, PARTS, s);
      if b.wall.Some? {
        PartsKeepFile(d, w.stuck, None, b.wall.value, PARTS, w.wall, ZERO, s);
      }
      if s.Wall? {
      }
      SlidesKeepFile(d1, w.stuck, b.slides, 0, w.slides, ZERO, s);
    }
  }

  lemma {:induction false} PurgeKeepsFile(d: Device, stuck: set<Path>, rows: seq<Row>, p: Path)
    ensures Kept(d.files, PurgeTombstoned(d, stuck, rows).files, p)
    decreases |rows|
  {
    if rows != [] {
      var d1 := if rows[0].deletedAt != "" && rows[0].id.RowId? then PurgeMedia(d, stuck, rows[0].id.n) else d;
      PurgeKeepsFile(d1, stuck, rows[1..], p);
    }
  }

  lemma {:induction false} StepsKeepFile(q: Progress, stuck: set<Path>, tables: seq<Table>, p: Path)
    ensures Kept(q.d.files, TableSteps(q, stuck, tables).d.files, p)
    decreases |tables|
  {
    if tables != [] && !q.raised {
      PurgeKeepsFile(WithRows(q.d, tables[0]), stuck, tables[0].rows, p);
      StepsKeepFile(TableStep(q, stuck, tables[0]), stuck, tables[1..], p);
    }
  }

  lemma {:induction false} FetchKeepsFile(d: Device, stuck: set<Path>, ids: seq<Id>, limit: int,
                                          serve: Id -> BlobReply, c: Counts, s: Slot)
    ensures Kept(d.files, FetchFrom(d, stuck, ids, limit, serve, c).0.files, VideoFile(s))
    decreases |ids|
  {
    if ids != [] && c.fetched < limit {
      if Cached(d, ids[0]) {
        FetchKeepsFile(d, stuck, ids[1..], limit, serve, c.(skipped := c.skipped + 1), s);
      } else {
        var (d', ok) := DownloadMedia(d, stuck, ids[0], serve(ids[0]));
        FetchKeepsFile(d', stuck, ids[1..], limit, serve,
                       if ok then c.(fetched := c.fetched + 1) else c.(errored := c.errored + 1), s);
      }
    }
  }

  // ---- Whole ticks ----

  lemma TickKeepsFile(d: Device, slug: string, w: World, s: Slot)
    requires NothingFor(w, s)
    ensures Kept(d.files, Tick(d, slug, w).files, VideoFile(s))
  {
    var (pulled, result) := Pull(d, w.stuck, w.manifest);
    StepsKeepFile(Progress(d, 0, 0, false), w.stuck, TablesOf(w), VideoFile(s));
    if result.Pulled? {
      var passed := FetchPass(pulled, w.stuck, FETCH_LIMIT, w.media).0;
      FetchKeepsFile(pulled, w.stuck, MediaIds(pulled.db.mirror), FETCH_LIMIT, w.media, ZERO, s);
      VideosKeepFile(passed, slug, w, s);
    }
  }

  /** A video file that is lost or empty, of the wall or of the rotation, stays so through any
      number of ticks in which its part is answered 304 or not at all. Nothing is assumed of
      the device, nor of what else the ticks bring. */
  lemma {:induction false} LostVideoStaysLost(d: Device, slug: string, ws: seq<World>, s: Slot)
    requires !HasFile(d, s) && forall i | 0 <= i < |ws| :: NothingFor(ws[i], s)
    ensures !HasFile(Ticks(d, slug, ws), s)
  {
    if ws != [] {
      LostVideoStaysLost(d, slug, ws[..|ws| - 1], s);
      TickKeepsFile(Ticks(d, slug, ws[..|ws| - 1]), slug, ws[|ws| - 1], s);
    }
  }

  // ---- A 304 looks like success ----

  lemma {:induction false} Parts304(d: Device, stuck: set<Path>, owner: Option<Id>, urls: Urls, parts: seq<VideoKind>,
                                    serve: VideoKind -> BlobReply, c: Counts)
    requires forall k :: FetchBudget.Is304(serve(k)) && UrlOf(urls, k) != ""
    ensures SyncParts(d, stuck, owner, urls, parts, serve, c) == (d, c.(skipped := c.skipped + |parts|))
    decreases |parts|
  {
    if parts != [] {
      Parts304(d, stuck, owner, urls, parts[1..], serve, c.(skipped := c.skipped + 1));
    }
  }

  /** A wall whose three parts are listed and all answered 304 reports three skipped, and changes
      nothing, whether or not a single file is there. */
  lemma WallOf304IsSkipped(d: Device, stuck: set<Path>, urls: Urls, serve: VideoKind -> BlobReply)
    requires forall k :: FetchBudget.Is304(serve(k)) && UrlOf(urls, k) != ""
    ensures SyncParts(d, stuck, None, urls, PARTS, serve, ZERO) == (d, Counts(0, 3, 0))
  {
    Parts304(d, stuck, None, urls, PARTS, serve, ZERO);
  }
}
