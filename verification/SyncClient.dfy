/** The sync client itself: the loops of `sync_client.py` over the cache and the
    directories, each proved to do what `SyncEngine` says. */
module SyncClients {
  import opened Basics
  import opened LocalCache
  import opened SyncEngine

  class SyncClient {
    const cache: KioskLocalCache
    const slug: string
    var files: Files

    constructor (cache: KioskLocalCache, slug: string, files: Files)
      ensures this.cache == cache && this.slug == slug && this.files == files
    {
      this.cache, this.slug, this.files := cache, slug, files;
    }

    function Now(): Device
      reads this, cache
    {
      Device(cache.Contents(), files)
    }

    method TryUnlink(stuck: set<Path>, p: Path)
      modifies this
      ensures files == Unlink(old(files), stuck, p)
    {
      if p !in stuck {
        files := files - {p};
      }
    }

    method PurgeMediaFile(stuck: set<Path>, id: Id)
      modifies this, cache
      ensures Now() == PurgeMedia(old(Now()), stuck, id)
    {
      if id in cache.media {
        var path := cache.media[id].path;
        cache.media := cache.media - {id};
        TryUnlink(stuck, path);
      }
    }

    method PurgeTombstones(stuck: set<Path>, rows: seq<Row>)
      modifies this, cache
      ensures Now() == PurgeTombstoned(old(Now()), stuck, rows)
    {
      for i := 0 to |rows|
        invariant PurgeTombstoned(Now(), stuck, rows[i..]) == PurgeTombstoned(old(Now()), stuck, rows)
      {
        assert rows[i..][1..] == rows[i + 1..];
        if rows[i].deletedAt != "" && rows[i].id.RowId? {
          PurgeMediaFile(stuck, rows[i].id.n);
        }
      }
    }

    method ApplyTable(stuck: set<Path>, t: Table) returns (r: Option<(nat, nat)>)
      modifies this, cache
      ensures r.Some? <==> AllUsable(t.rows)
      ensures r.None? ==> Now() == old(Now())
      ensures r.Some? ==> Now() == AfterTable(old(Now()), stuck, t)
      ensures r.Some? ==> r.value == (Upserts(t.rows), Removals(old(cache.mirror), t.name, t.rows))
    {
      r := cache.ApplyRows(t.name, t.rows);
      if r.Some? {
        assert Now() == WithRows(old(Now()), t);
        if t.name == MEDIA_TABLE && r.value.1 > 0 {
          PurgeTombstones(stuck, t.rows);
        }
      }
    }

    method ApplyTables(stuck: set<Path>, tables: seq<Table>) returns (p: Progress)
      modifies this, cache
      ensures p == TableSteps(Progress(old(Now()), 0, 0, false), stuck, tables) && Now() == p.d
    {
      p := Progress(Now(), 0, 0, false);
      for i := 0 to |tables|
        invariant p.d == Now() && !p.raised
        invariant TableSteps(p, stuck, tables[i..]) == TableSteps(Progress(old(Now()), 0, 0, false), stuck, tables)
      {
        assert tables[i..][0] == tables[i] && tables[i..][1..] == tables[i + 1..];
        var r := ApplyTable(stuck, tables[i]);
        if r.None? {
          return p.(raised := true);
        }
        p := Progress(Now(), p.upserted + r.value.0, p.deleted + r.value.1, false);
      }
    }

    method PullManifest(stuck: set<Path>, reply: ApiReply<Manifest>) returns (result: PullResult)
      modifies this, cache
      ensures (Now(), result) == Pull(old(Now()), stuck, reply)
    {
      if reply.Unreachable? {
        return Refused(Network);
      }
      if reply.code == 401 {
        return Refused(Unauthorized);
      }
      if reply.code >= 400 {
        return Refused(Http(reply.code));
      }
      if reply.body.None? {
        return Refused(NonJson);
      }
      var Manifest(tables, cursorAt) := reply.body.value;
      var p := ApplyTables(stuck, tables);
      if p.raised {
        return Raised;
      }
      if cursorAt != "" {
        cache.cursor := Some(cursorAt);
      }
      result := Pulled(cursorAt, p.upserted, p.deleted);
    }

    method StreamToFile(stuck: set<Path>, p: Path, body: Bytes, disk: Disk) returns (ok: bool)
      modifies this
      ensures Saved(files, ok) == Save(old(files), stuck, p, body, disk)
      ensures ok <==> disk.WriteOk? && body != []
      ensures files - {p} == old(files) - {p}
      ensures disk.OpenFails? ==> files == old(files)
      ensures disk.WriteFailsAfter? ==> p in files && files[p] <= body && |files[p]| == Min(disk.n, |body|)
      ensures ok || (disk.StatFails? && p in stuck) ==> p in files && files[p] == body
      ensures (disk.WriteOk? && body == []) || disk.StatFails? ==> (p in files <==> p in stuck)
    {
      if disk.OpenFails? {
        return false;
      }
      if disk.WriteFailsAfter? {
        files := files[p := if disk.n < |body| then body[..disk.n] else body];
        return false;
      }
      files := files[p := body];
      var actualSize := if disk.StatFails? then 0 else |body|;
      if actualSize == 0 {
        TryUnlink(stuck, p);
        return false;
      }
      ok := true;
    }

    method Download(stuck: set<Path>, id: Id, reply: BlobReply) returns (ok: bool)
      modifies this, cache
      ensures (Now(), ok) == DownloadMedia(old(Now()), stuck, id, reply)
    {
      if reply.NoReply? {
        return false;
      }
      if reply.code == 304 {
        return true;
      }
      if reply.code == 404 {
        PurgeMediaFile(stuck, id);
        return false;
      }
      if reply.code >= 400 {
        return false;
      }
      ok := StreamToFile(stuck, MediaFile(id), reply.body, reply.disk);
      if ok {
        cache.media := cache.media[id := Blob(reply.etag, MediaFile(id))];
      }
    }

    method FetchMissingMedia(stuck: set<Path>, limit: int, serve: Id -> BlobReply) returns (c: Counts)
      modifies this, cache
      ensures (Now(), c) == FetchPass(old(Now()), stuck, limit, serve)
    {
      var ids := MediaIds(cache.mirror);
      c := ZERO;
      var i := 0;
      while i < |ids|
        invariant 0 <= i <= |ids|
        invariant FetchFrom(Now(), stuck, ids[i..], limit, serve, c) == FetchPass(old(Now()), stuck, limit, serve)
      {
        if c.fetched >= limit {
          break;
        }
        var id := ids[i];
        assert ids[i..][0] == id && ids[i..][1..] == ids[i + 1..];
        if Cached(Now(), id) {
          c := c.(skipped := c.skipped + 1);
        } else {
          var ok := Download(stuck, id, serve(id));
          c := if ok then c.(fetched := c.fetched + 1) else c.(errored := c.errored + 1);
        }
        i := i + 1;
      }
    }

    method PurgeVideoPart(stuck: set<Path>, slot: Slot)
      modifies this, cache
      ensures Now() == PurgePart(old(Now()), stuck, slot)
    {
      if slot in cache.videos {
        var path := cache.videos[slot].path;
        cache.videos := cache.videos - {slot};
        TryUnlink(stuck, path);
      }
    }

    method DownloadVideoPart(stuck: set<Path>, slot: Slot, reply: BlobReply) returns (o: Outcome)
      modifies this, cache
      ensures (Now(), o) == DownloadPart(old(Now()), stuck, slot, reply)
    {
      if reply.NoReply? {
        return Errored;
      }
      if reply.code == 304 {
        return Skipped;
      }
      if reply.code == 404 {
        PurgeVideoPart(stuck, slot);
        return Errored;
      }
      if reply.code >= 400 {
        return Errored;
      }
      var ok := StreamToFile(stuck, VideoFile(slot), reply.body, reply.disk);
      if !ok {
        return Errored;
      }
      cache.videos := cache.videos[slot := Blob(reply.etag, VideoFile(slot))];
      o := Fetched;
    }

    method SyncVideoParts(stuck: set<Path>, owner: Option<Id>, urls: Urls, serve: VideoKind -> BlobReply,
                          c0: Counts) returns (c: Counts)
      modifies this, cache
      ensures (Now(), c) == SyncParts(old(Now()), stuck, owner, urls, PARTS, serve, c0)
    {
      c := c0;
      for i := 0 to |PARTS|
        invariant SyncParts(Now(), stuck, owner, urls, PARTS[i..], serve, c)
               == SyncParts(old(Now()), stuck, owner, urls, PARTS, serve, c0)
      {
        var k := PARTS[i];
        assert PARTS[i..][0] == k && PARTS[i..][1..] == PARTS[i + 1..];
        if UrlOf(urls, k) == "" {
          PurgeVideoPart(stuck, SlotOf(owner, k));
        } else {
          var o := DownloadVideoPart(stuck, SlotOf(owner, k), serve(k));
          c := Count(c, o);
        }
      }
    }

    method DropRotationVideo(stuck: set<Path>, id: Id)
      modifies this, cache
      ensures Now() == DropRotation(old(Now()), stuck, {id})
    {
      var gone := PartsOf(cache.videos, {id});
      var paths := PathsOf(cache.videos, gone);
      cache.videos := cache.videos - gone;
      files := files - (paths - stuck);
    }

    /** Deletes the rows of every stale id and unlinks their files, id by id. */
    method PurgeRotationVideos(stuck: set<Path>, stale: set<Id>)
      modifies this, cache
      ensures Now() == DropRotation(old(Now()), stuck, stale)
    {
      var left := stale;
      assert stale - left == {};
      while left != {}
        invariant left <= stale
        invariant Now() == DropRotation(old(Now()), stuck, stale - left)
        decreases left
      {
        var id :| id in left;
        DropOneMore(old(Now()), stuck, stale - left, id);
        assert stale - left + {id} == stale - (left - {id});
        DropRotationVideo(stuck, id);
        left := left - {id};
      }
      assert stale - left == stale;
    }

    method SyncRotationVideos(stuck: set<Path>, slides: seq<Slide>, serve: SlideServe) returns (r: RotationStats)
      modifies this, cache
      ensures (Now(), r) == SyncRotation(old(Now()), stuck, slides, serve)
    {
      var keep: set<Id> := {};
      var c := ZERO;
      for i := 0 to |slides|
        invariant keep == KeepIds(slides[..i])
        invariant SyncSlides(Now(), stuck, slides, i, serve, c)
               == SyncSlides(old(Now()), stuck, slides, 0, serve, ZERO)
      {
        assert slides[..i + 1] == slides[..i] + [slides[i]];
        if PerId(slides[i]) {
          keep := keep + {slides[i].id.n};
          c := SyncVideoParts(stuck, Some(slides[i].id.n), slides[i].urls, p => serve(i, p), c);
        }
      }
      assert slides[..|slides|] == slides;
      var stale := StaleIds(cache.videos, keep);
      PurgeRotationVideos(stuck, stale);
      r := RotationStats(c, |stale|);
    }

    method PurgeBackgroundVideo(stuck: set<Path>) returns (purged: nat)
      modifies this, cache
      ensures Now() == PurgeWall(old(Now()), stuck, PARTS) && purged == WallRecords(old(cache.videos), PARTS)
    {
      purged := 0;
      for i := 0 to |PARTS|
        invariant PurgeWall(Now(), stuck, PARTS[i..]) == PurgeWall(old(Now()), stuck, PARTS)
        invariant purged == WallRecords(old(cache.videos), PARTS[..i])
        invariant forall j | i <= j < |PARTS| :: Wall(PARTS[j]) in cache.videos <==> Wall(PARTS[j]) in old(cache.videos)
      {
        assert PARTS[i..][1..] == PARTS[i + 1..] && PARTS[..i + 1][..i] == PARTS[..i];
        if Wall(PARTS[i]) in cache.videos {
          purged := purged + 1;
        }
        PurgeVideoPart(stuck, Wall(PARTS[i]));
      }
      assert PARTS[..|PARTS|] == PARTS;
    }

    method FetchBackgroundVideo(w: World) returns (r: VideoResult)
      modifies this, cache
      ensures Now() == SyncVideos(old(Now()), w.stuck, slug, w.backgrounds, w.wall, w.slides)
      ensures r == VideoReport(old(Now()), w.stuck, slug, w.backgrounds, w.wall, w.slides)
    {
      if slug == "" {
        return VideoFailed(NoSlug);
      }
      if w.backgrounds.Unreachable? {
        return VideoFailed(VideoNetwork);
      }
      if w.backgrounds.code >= 400 {
        return VideoFailed(VideoHttp(w.backgrounds.code));
      }
      if w.backgrounds.body.None? {
        return VideoFailed(VideoNonJson);
      }
      var b := w.backgrounds.body.value;
      if b.wall.None? {
        var purged := PurgeBackgroundVideo(w.stuck);
        var rotation := SyncRotationVideos(w.stuck, b.slides, w.slides);
        r := WallPurged(purged, rotation);
      } else {
        var c := SyncVideoParts(w.stuck, None, b.wall.value, w.wall, ZERO);
        var rotation := SyncRotationVideos(w.stuck, b.slides, w.slides);
        r := WallSynced(c, rotation);
      }
    }

    method FlushEvents(limit: nat, status: Option<nat>) returns (r: Push)
      modifies cache
      ensures Now() == Flush(old(Now()), limit, status)
      ensures r == PushReport(old(cache.events), limit, status)
    {
      var batch := Batch(cache.events, limit);
      if batch == [] {
        assert cache.events - Elements([]) == cache.events;
        return Push(0, None);
      }
      if status.None? {
        return Push(0, Some(Network));
      }
      if status.value >= 400 {
        return Push(0, Some(Http(status.value)));
      }
      cache.events := cache.events - Elements(batch);
      r := Push(|batch|, None);
    }

    method RunOnce(w: World) returns (r: Option<Report>)
      modifies this, cache
      ensures Now() == Tick(old(Now()), slug, w)
      ensures r == TickReport(old(Now()), slug, w)
    {
      var result := PullManifest(w.stuck, w.manifest);
      if result.Raised? {
        return None;
      }
      if result.Refused? {
        var push := FlushEvents(EVENT_BATCH, w.post);
        return Some(Report(result, None, None, push));
      }
      var c := FetchMissingMedia(w.stuck, FETCH_LIMIT, w.media);
      var video := FetchBackgroundVideo(w);
      var push := FlushEvents(EVENT_BATCH, w.post);
      r := Some(Report(result, Some(c), Some(video), push));
    }
  }

  lemma DropOneMore(d: Device, stuck: set<Path>, done: set<Id>, id: Id)
    ensures DropRotation(d, stuck, done + {id}) == DropRotation(DropRotation(d, stuck, done), stuck, {id})
  {
    var videos := d.db.videos;
    var first, second := PartsOf(videos, done), PartsOf(videos - PartsOf(videos, done), {id});
    assert PartsOf(videos, done + {id}) == first + second;
    var paths1, paths2 := PathsOf(videos, first), PathsOf(videos - first, second);
    assert paths1 + paths2 - stuck == (paths1 - stuck) + (paths2 - stuck);
  }

}
