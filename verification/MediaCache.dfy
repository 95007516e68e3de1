/** The media cache: what its records promise over runs of uninterrupted ticks. */
module MediaCache {
  import opened Basics
  import opened LocalCache
  import opened SyncEngine
  import opened BackgroundVideos

  ghost predicate OwnMedia(d: Device) {
    forall i | i in d.db.media :: d.db.media[i].path == MediaFile(i)
  }

  function InMirror(m: Mirror): set<Id> {
    set k | k in m && k.table == MEDIA_TABLE :: k.id
  }

  /** Each media record has its row in the mirror. */
  ghost predicate Known(d: Device) {
    forall i | i in d.db.media :: Key(MEDIA_TABLE, i) in d.db.mirror
  }

  ghost predicate Backed(d: Device) {
    forall i | i in d.db.media :: NonEmptyFile(d.files, MediaFile(i))
  }

  /** Each media record names its own, existing, non-empty file. */
  ghost predicate Usable(d: Device) {
    OwnMedia(d) && Backed(d)
  }

  ghost predicate Sound(d: Device) {
    Usable(d) && Known(d)
  }

  ghost predicate Tombstoned(rows: seq<Row>, i: Id) {
    exists j :: 0 <= j < |rows| && rows[j].deletedAt != "" && rows[j].id == RowId(i)
  }

  /** The record of id i and the contents of its file are the same on both devices. */
  ghost predicate SameBlob(d: Device, d': Device, i: Id) {
    && (i in d.db.media <==> i in d'.db.media)
    && (i in d.db.media ==> d.db.media[i] == d'.db.media[i])
    && (MediaFile(i) in d.files <==> MediaFile(i) in d'.files)
    && (MediaFile(i) in d.files ==> d.files[MediaFile(i)] == d'.files[MediaFile(i)])
  }

  /** The record of id i is gone, and the file it named with it unless `unlink` failed. */
  ghost predicate Forgotten(d: Device, d': Device, stuck: set<Path>, i: Id) {
    i !in d'.db.media && (i in d.db.media && MediaFile(i) !in stuck ==> MediaFile(i) !in d'.files)
  }

  // ---- Pull ----

  /** The purge of a batch drops record and file of every tombstoned id, and leaves those of
      every other id alone. */
  lemma {:induction false} PurgesTheTombstoned(d: Device, stuck: set<Path>, rows: seq<Row>, i: Id)
    requires OwnMedia(d)
    ensures
      var d' := PurgeTombstoned(d, stuck, rows);
      && d'.db == d.db.(media := d'.db.media) && OwnMedia(d')
      && (!Tombstoned(rows, i) ==> SameBlob(d, d', i))
      && (Tombstoned(rows, i) ==> Forgotten(d, d', stuck, i))
      && (MediaFile(i) in d'.files ==> MediaFile(i) in d.files)
    decreases |rows|
  {
    if rows != [] {
      var d1 := if rows[0].deletedAt != "" && rows[0].id.RowId? then PurgeMedia(d, stuck, rows[0].id.n) else d;
      PurgesTheTombstoned(d1, stuck, rows[1..], i);
      if Tombstoned(rows, i) && !Tombstoned(rows[1..], i) {
        assert rows[0].id == RowId(i);
      }
    }
  }

  lemma TableStaysUsable(d: Device, stuck: set<Path>, t: Table)
    requires Usable(d)
    ensures Usable(AfterTable(d, stuck, t)) && (Known(d) ==> Known(AfterTable(d, stuck, t)))
    ensures AfterTable(d, stuck, t).db.videos == d.db.videos
  {
    var d' := AfterTable(d, stuck, t);
    PurgesTheTombstoned(WithRows(d, t), stuck, t.rows, 0);
    forall i | i in d'.db.media
      ensures NonEmptyFile(d'.files, MediaFile(i)) && (Known(d) ==> Key(MEDIA_TABLE, i) in d'.db.mirror)
    {
      PurgesTheTombstoned(WithRows(d, t), stuck, t.rows, i);
      var k := Key(MEDIA_TABLE, i);
      if t.name != MEDIA_TABLE {
        AfterRowsElsewhere(d.db.mirror, t.name, t.rows, k);
      } else if k in d.db.mirror && k !in AfterRows(d.db.mirror, t.name, t.rows) {
        LostKeyIsCounted(d.db.mirror, t.name, t.rows, k);
      }
    }
  }

  lemma {:induction false} StepsStayUsable(p: Progress, stuck: set<Path>, tables: seq<Table>)
    requires Usable(p.d)
    ensures
      var d' := TableSteps(p, stuck, tables).d;
      Usable(d') && (Known(p.d) ==> Known(d')) && d'.db.videos == p.d.db.videos
    decreases |tables|
  {
    if tables != [] && !p.raised {
      TableStaysUsable(p.d, stuck, tables[0]);
      StepsStayUsable(TableStep(p, stuck, tables[0]), stuck, tables[1..]);
    }
  }

  // ---- Fetch ----

  lemma SavedStaysUsable(d: Device, stuck: set<Path>, id: Id, body: Bytes, disk: Disk, etag: Option<string>)
    requires Usable(d) && id !in d.db.media
    ensures
      var s := Save(d.files, stuck, MediaFile(id), body, disk);
      Usable(if s.ok then Device(d.db.(media := d.db.media[id := Blob(etag, MediaFile(id))]), s.files)
             else d.(files := s.files))
  {
    forall i | i in d.db.media
      ensures NonEmptyFile(Save(d.files, stuck, MediaFile(id), body, disk).files, MediaFile(i))
    {
    }
  }

  lemma DownloadStaysUsable(d: Device, stuck: set<Path>, id: Id, reply: BlobReply)
    requires Usable(d) && !Cached(d, id) && id in InMirror(d.db.mirror)
    ensures
      var d' := DownloadMedia(d, stuck, id, reply).0;
      Usable(d') && (Known(d) ==> Known(d')) && d'.db == d.db.(media := d'.db.media)
  {
    assert id !in d.db.media;
    var k :| k in d.db.mirror && k.table == MEDIA_TABLE && k.id == id;
    assert k == Key(MEDIA_TABLE, id);
    if reply.Reply? {
      SavedStaysUsable(d, stuck, id, reply.body, reply.disk, reply.etag);
    }
  }

  lemma {:induction false} FetchStaysUsable(d: Device, stuck: set<Path>, ids: seq<Id>, limit: int,
                                            serve: Id -> BlobReply, c: Counts)
    requires Usable(d) && forall i | 0 <= i < |ids| :: ids[i] in InMirror(d.db.mirror)
    ensures
      var d' := FetchFrom(d, stuck, ids, limit, serve, c).0;
      Usable(d') && (Known(d) ==> Known(d')) && d'.db == d.db.(media := d'.db.media)
    decreases |ids|
  {
    if ids != [] && c.fetched < limit {
      if Cached(d, ids[0]) {
        FetchStaysUsable(d, stuck, ids[1..], limit, serve, c.(skipped := c.skipped + 1));
      } else {
        var (d', ok) := DownloadMedia(d, stuck, ids[0], serve(ids[0]));
        DownloadStaysUsable(d, stuck, ids[0], serve(ids[0]));
        FetchStaysUsable(d', stuck, ids[1..], limit, serve,
                         if ok then c.(fetched := c.fetched + 1) else c.(errored := c.errored + 1));
      }
    }
  }

  ghost predicate Distinct(ids: seq<Id>) {
    forall i, j | 0 <= i < j < |ids| :: ids[i] != ids[j]
  }

  lemma MediaIdsListMirror(m: Mirror)
    ensures Distinct(MediaIds(m)) && forall i :: i in MediaIds(m) <==> i in InMirror(m)
  {
    AscendingSpec(InMirror(m));
  }

  lemma PassStaysUsable(d: Device, stuck: set<Path>, limit: int, serve: Id -> BlobReply)
    requires Usable(d)
    ensures
      var d' := FetchPass(d, stuck, limit, serve).0;
      Usable(d') && (Known(d) ==> Known(d')) && d'.db == d.db.(media := d'.db.media)
  {
    MediaIdsListMirror(d.db.mirror);
    FetchStaysUsable(d, stuck, MediaIds(d.db.mirror), limit, serve, ZERO);
  }

  // ---- Whole ticks ----

  lemma PullStaysUsable(d: Device, stuck: set<Path>, reply: ApiReply<Manifest>)
    requires Usable(d)
    ensures
      var d' := Pull(d, stuck, reply).0;
      Usable(d') && (Known(d) ==> Known(d')) && d'.db.videos == d.db.videos
  {
    if reply.Answer? && reply.body.Some? {
      StepsStayUsable(Progress(d, 0, 0, false), stuck, reply.body.value.tables);
    }
  }

  lemma VideosKeepUsable(d: Device, slug: string, w: World)
    requires Usable(d) && Own(d)
    ensures
      var d' := SyncVideos(d, w.stuck, slug, w.backgrounds, w.wall, w.slides);
      Usable(d') && (Known(d) ==> Known(d')) && Own(d')
  {
    VideosStayInTheirLane(d, slug, w);
  }

  lemma TickStaysUsable(d: Device, slug: string, w: World)
    requires Usable(d) && Own(d)
    ensures Usable(Tick(d, slug, w)) && Own(Tick(d, slug, w)) && (Known(d) ==> Known(Tick(d, slug, w)))
  {
    PullStaysUsable(d, w.stuck, w.manifest);
    var (pulled, result) := Pull(d, w.stuck, w.manifest);
    if result.Pulled? {
      PassStaysUsable(pulled, w.stuck, FETCH_LIMIT, w.media);
      VideosKeepUsable(FetchPass(pulled, w.stuck, FETCH_LIMIT, w.media).0, slug, w);
    }
  }

  /** Whatever the backend answers and however the disk behaves, after any number of
      uninterrupted ticks every media record is backed by a row and a non-empty file. */
  lemma {:induction false} EveryRecordIsBacked(files: Files, slug: string, ws: seq<World>)
    ensures
      var d := Ticks(Device(EMPTY_DB, files), slug, ws);
      Sound(d) && Own(d)
  {
    if ws != [] {
      EveryRecordIsBacked(files, slug, ws[..|ws| - 1]);
      TickStaysUsable(Ticks(Device(EMPTY_DB, files), slug, ws[..|ws| - 1]), slug, ws[|ws| - 1]);
    }
  }
}
