/** What one step of the sync engine does to the device: the cache database and the
    media and video directories. Every answer of the backend and every outcome of a
    disk operation is an argument, so an adversary chooses it. */
module SyncEngine {
  import opened Basics
  import opened LocalCache

  type Bytes = seq<bv8>

  type Files = map<Path, Bytes>

  datatype Device = Device(db: Db, files: Files)

  /** `requests` either raises, or answers with a status and a JSON body that may
      fail to parse. */
  datatype ApiReply<T> = Unreachable | Answer(code: nat, body: Option<T>)

  datatype Table = Table(name: string, rows: seq<Row>)

  datatype Manifest = Manifest(tables: seq<Table>, cursorAt: string)

  /** How writing a download goes: completely, not even opened, cut after n bytes, or
      completely but with the size check failing. */
  datatype Disk = WriteOk | OpenFails | WriteFailsAfter(n: nat) | StatFails

  datatype BlobReply = NoReply | Reply(code: nat, body: Bytes, etag: Option<string>, disk: Disk)

  // ---- Files ----

  /** `unlink` on a path in `stuck` raises, which every caller swallows. */
  function Unlink(files: Files, stuck: set<Path>, p: Path): Files {
    if p in stuck then files else files - {p}
  }

  datatype Saved = Saved(files: Files, ok: bool)

  /** Streams a body to `p`, then keeps it only if it is known to be non-empty. */
  function Save(files: Files, stuck: set<Path>, p: Path, body: Bytes, disk: Disk): Saved {
    match disk
    case OpenFails => Saved(files, false)
    case WriteFailsAfter(n) => Saved(files[p := if n < |body| then body[..n] else body], false)
    case StatFails => Saved(Unlink(files[p := body], stuck, p), false)
    case WriteOk =>
      if body == [] then Saved(Unlink(files[p := body], stuck, p), false)
      else Saved(files[p := body], true)
  }

  // ---- Phase 1: pull ----

  function PurgeMedia(d: Device, stuck: set<Path>, id: Id): Device {
    if id !in d.db.media then d
    else Device(d.db.(media := d.db.media - {id}), Unlink(d.files, stuck, d.db.media[id].path))
  }

  function PurgeTombstoned(d: Device, stuck: set<Path>, rows: seq<Row>): Device
    decreases |rows|
  {
    if rows == [] then d
    else
      var row := rows[0];
      var d' := if row.deletedAt != "" && row.id.RowId? then PurgeMedia(d, stuck, row.id.n) else d;
      PurgeTombstoned(d', stuck, rows[1..])
  }

  /** The transaction alone, before any blob is purged. */
  function WithRows(d: Device, t: Table): Device {
    d.(db := d.db.(mirror := AfterRows(d.db.mirror, t.name, t.rows)))
  }

  function AfterTable(d: Device, stuck: set<Path>, t: Table): Device {
    if t.name == MEDIA_TABLE && Removals(d.db.mirror, t.name, t.rows) > 0
    then PurgeTombstoned(WithRows(d, t), stuck, t.rows)
    else WithRows(d, t)
  }

  datatype Progress = Progress(d: Device, upserted: nat, deleted: nat, raised: bool)

  function TableStep(p: Progress, stuck: set<Path>, t: Table): Progress {
    if !AllUsable(t.rows) then p.(raised := true)
    else Progress(AfterTable(p.d, stuck, t),
                  p.upserted + Upserts(t.rows),
                  p.deleted + Removals(p.d.db.mirror, t.name, t.rows), false)
  }

  /** Applies the tables in turn; the first unusable id raises out of the loop. */
  function TableSteps(p: Progress, stuck: set<Path>, tables: seq<Table>): Progress
    decreases |tables|
  {
    if tables == [] || p.raised then p
    else TableSteps(TableStep(p, stuck, tables[0]), stuck, tables[1..])
  }

  datatype PullError = Network | Unauthorized | Http(code: nat) | NonJson

  datatype PullResult = Pulled(newCursor: string, upserted: nat, deleted: nat)
                      | Refused(error: PullError)
                      | Raised

  function Pull(d: Device, stuck: set<Path>, reply: ApiReply<Manifest>): (Device, PullResult) {
    match reply
    case Unreachable => (d, Refused(Network))
    case Answer(code, body) =>
      if code == 401 then (d, Refused(Unauthorized))
      else if code >= 400 then (d, Refused(Http(code)))
      else if body.None? then (d, Refused(NonJson))
      else
        var p := TableSteps(Progress(d, 0, 0, false), stuck, body.value.tables);
        if p.raised then (p.d, Raised)
        else
          var cursorAt := body.value.cursorAt;
          (if cursorAt == "" then p.d else p.d.(db := p.d.db.(cursor := Some(cursorAt))),
           Pulled(cursorAt, p.upserted, p.deleted))
  }

  // ---- Phase 2: media blobs ----

  predicate NonEmptyFile(files: Files, p: Path) {
    p in files && files[p] != []
  }

  /** The test that makes a fetch pass skip a row. */
  predicate Cached(d: Device, id: Id) {
    id in d.db.media && NonEmptyFile(d.files, d.db.media[id].path)
  }

  function DownloadMedia(d: Device, stuck: set<Path>, id: Id, reply: BlobReply): (Device, bool) {
    match reply
    case NoReply => (d, false)
    case Reply(code, body, etag, disk) =>
      if code == 304 then (d, true)
      else if code == 404 then (PurgeMedia(d, stuck, id), false)
      else if code >= 400 then (d, false)
      else
        var s := Save(d.files, stuck, MediaFile(id), body, disk);
        if s.ok then (Device(d.db.(media := d.db.media[id := Blob(etag, MediaFile(id))]), s.files), true)
        else (d.(files := s.files), false)
  }

  /** The ids of the mirrored media rows in the order `list_rows` returns them. */
  function MediaIds(m: Mirror): seq<Id> {
    Ascending(set k | k in m && k.table == MEDIA_TABLE :: k.id)
  }

  datatype Counts = Counts(fetched: nat, skipped: nat, errored: nat)

  const ZERO := Counts(0, 0, 0)

  function FetchFrom(d: Device, stuck: set<Path>, ids: seq<Id>, limit: int, serve: Id -> BlobReply,
                     c: Counts): (Device, Counts)
    decreases |ids|
  {
    if ids == [] || c.fetched >= limit then (d, c)
    else if Cached(d, ids[0]) then FetchFrom(d, stuck, ids[1..], limit, serve, c.(skipped := c.skipped + 1))
    else
      var (d', ok) := DownloadMedia(d, stuck, ids[0], serve(ids[0]));
      FetchFrom(d', stuck, ids[1..], limit, serve,
                if ok then c.(fetched := c.fetched + 1) else c.(errored := c.errored + 1))
  }

  function FetchPass(d: Device, stuck: set<Path>, limit: int, serve: Id -> BlobReply): (Device, Counts) {
    FetchFrom(d, stuck, MediaIds(d.db.mirror), limit, serve, ZERO)
  }

  // ---- Phase 2b: background videos ----

  /** The URLs of one video's parts; "" where the key is absent, null or empty. */
  datatype Urls = Urls(webm: string, mp4: string, poster: string)

  function UrlOf(u: Urls, k: VideoKind): string {
    match k
    case Webm => u.webm
    case Mp4 => u.mp4
    case Poster => u.poster
  }

  /** One entry of `slideshow_videos`. */
  datatype Slide = NotADict | Slide(id: RowId, urls: Urls)

  datatype Backgrounds = Backgrounds(wall: Option<Urls>, slides: seq<Slide>)

  const PARTS := [Webm, Mp4, Poster]

  /** Whose parts: the designated wall video, or a rotation video. */
  function SlotOf(owner: Option<Id>, k: VideoKind): Slot {
    if owner.None? then Wall(k) else Rotation(owner.value, k)
  }

  function PurgePart(d: Device, stuck: set<Path>, slot: Slot): Device {
    if slot !in d.db.videos then d
    else Device(d.db.(videos := d.db.videos - {slot}), Unlink(d.files, stuck, d.db.videos[slot].path))
  }

  datatype Outcome = Fetched | Skipped | Errored

  function DownloadPart(d: Device, stuck: set<Path>, slot: Slot, reply: BlobReply): (Device, Outcome) {
    match reply
    case NoReply => (d, Errored)
    case Reply(code, body, etag, disk) =>
      if code == 304 then (d, Skipped)
      else if code == 404 then (PurgePart(d, stuck, slot), Errored)
      else if code >= 400 then (d, Errored)
      else
        var s := Save(d.files, stuck, VideoFile(slot), body, disk);
        if s.ok then (Device(d.db.(videos := d.db.videos[slot := Blob(etag, VideoFile(slot))]), s.files), Fetched)
        else (d.(files := s.files), Errored)
  }

  function Count(c: Counts, o: Outcome): Counts {
    match o
    case Fetched => c.(fetched := c.fetched + 1)
    case Skipped => c.(skipped := c.skipped + 1)
    case Errored => c.(errored := c.errored + 1)
  }

  function SyncParts(d: Device, stuck: set<Path>, owner: Option<Id>, urls: Urls, parts: seq<VideoKind>,
                     serve: VideoKind -> BlobReply, c: Counts): (Device, Counts)
    decreases |parts|
  {
    if parts == [] then (d, c)
    else
      var slot := SlotOf(owner, parts[0]);
      if UrlOf(urls, parts[0]) == "" then SyncParts(PurgePart(d, stuck, slot), stuck, owner, urls, parts[1..], serve, c)
      else
        var (d', o) := DownloadPart(d, stuck, slot, serve(parts[0]));
        SyncParts(d', stuck, owner, urls, parts[1..], serve, Count(c, o))
  }

  predicate Contains(s: string, part: string) {
    exists i | 0 <= i <= |s| :: part <= s[i..]
  }

  /** An entry addressed by id: the designated video's bare URL is not one. */
  predicate PerId(s: Slide) {
    s.Slide? && s.id.RowId? && Contains(s.urls.webm, "video_id=")
  }

  function KeepIds(slides: seq<Slide>): set<Id> {
    set i | 0 <= i < |slides| && PerId(slides[i]) :: slides[i].id.n
  }

  type SlideServe = (nat, VideoKind) -> BlobReply

  /** Entries k, k+1, ... of the list, in order. */
  function SyncSlides(d: Device, stuck: set<Path>, slides: seq<Slide>, k: nat, serve: SlideServe,
                      c: Counts): (Device, Counts)
    requires k <= |slides|
    decreases |slides| - k
  {
    if k == |slides| then (d, c)
    else if !PerId(slides[k]) then SyncSlides(d, stuck, slides, k + 1, serve, c)
    else
      var (d', c') := SyncParts(d, stuck, Some(slides[k].id.n), slides[k].urls, PARTS, p => serve(k, p), c);
      SyncSlides(d', stuck, slides, k + 1, serve, c')
  }

  function StaleIds(videos: map<Slot, Blob>, keep: set<Id>): set<Id> {
    set s | s in videos && s.Rotation? && s.id !in keep :: s.id
  }

  function PartsOf(videos: map<Slot, Blob>, ids: set<Id>): set<Slot> {
    set s | s in videos && s.Rotation? && s.id in ids
  }

  function PathsOf(videos: map<Slot, Blob>, slots: set<Slot>): set<Path>
    requires slots <= videos.Keys
  {
    set s | s in slots :: videos[s].path
  }

  /** Drops every part of every rotation video in `stale`. */
  function DropRotation(d: Device, stuck: set<Path>, stale: set<Id>): Device {
    var gone := PartsOf(d.db.videos, stale);
    Device(d.db.(videos := d.db.videos - gone), d.files - (PathsOf(d.db.videos, gone) - stuck))
  }

  datatype RotationStats = RotationStats(counts: Counts, purged: nat)

  function SyncRotation(d: Device, stuck: set<Path>, slides: seq<Slide>, serve: SlideServe): (Device, RotationStats) {
    var (d', c) := SyncSlides(d, stuck, slides, 0, serve, ZERO);
    var stale := StaleIds(d'.db.videos, KeepIds(slides));
    (DropRotation(d', stuck, stale), RotationStats(c, |stale|))
  }

  /** Without an enabled designated video every wall part is dropped. */
  function PurgeWall(d: Device, stuck: set<Path>, parts: seq<VideoKind>): Device
    decreases |parts|
  {
    if parts == [] then d else PurgeWall(PurgePart(d, stuck, Wall(parts[0])), stuck, parts[1..])
  }

  function SyncVideos(d: Device, stuck: set<Path>, slug: string, reply: ApiReply<Backgrounds>,
                      wallServe: VideoKind -> BlobReply, slideServe: SlideServe): Device {
    if slug == "" || reply.Unreachable? || reply.code >= 400 || reply.body.None? then d
    else
      var b := reply.body.value;
      var d' := if b.wall.None? then PurgeWall(d, stuck, PARTS)
                else SyncParts(d, stuck, None, b.wall.value, PARTS, wallServe, ZERO).0;
      SyncRotation(d', stuck, b.slides, slideServe).0
  }

  datatype VideoError = NoSlug | VideoNetwork | VideoHttp(code: nat) | VideoNonJson

  /** The stats of the video phase. */
  datatype VideoResult = VideoFailed(error: VideoError)
                       | WallPurged(purged: nat, rotation: RotationStats)
                       | WallSynced(counts: Counts, rotation: RotationStats)

  /** How many of these wall parts have a record. */
  function WallRecords(videos: map<Slot, Blob>, parts: seq<VideoKind>): nat {
    if parts == [] then 0
    else WallRecords(videos, parts[..|parts| - 1]) + if Wall(parts[|parts| - 1]) in videos then 1 else 0
  }

  function VideoReport(d: Device, stuck: set<Path>, slug: string, reply: ApiReply<Backgrounds>,
                       wallServe: VideoKind -> BlobReply, slideServe: SlideServe): VideoResult {
    if slug == "" then VideoFailed(NoSlug)
    else if reply.Unreachable? then VideoFailed(VideoNetwork)
    else if reply.code >= 400 then VideoFailed(VideoHttp(reply.code))
    else if reply.body.None? then VideoFailed(VideoNonJson)
    else
      var b := reply.body.value;
      if b.wall.None? then
        WallPurged(WallRecords(d.db.videos, PARTS),
                   SyncRotation(PurgeWall(d, stuck, PARTS), stuck, b.slides, slideServe).1)
      else
        var (d', c) := SyncParts(d, stuck, None, b.wall.value, PARTS, wallServe, ZERO);
        WallSynced(c, SyncRotation(d', stuck, b.slides, slideServe).1)
  }

  // ---- Phase 3: push ----

  datatype Push = Push(sent: nat, error: Option<PullError>)

  function PushReport(events: map<Id, Event>, limit: nat, status: Option<nat>): Push {
    var batch := Batch(events, limit);
    if batch == [] then Push(0, None)
    else if status.None? then Push(0, Some(Network))
    else if status.value >= 400 then Push(0, Some(Http(status.value)))
    else Push(|batch|, None)
  }

  /** The ids of the oldest `limit` queued events. */
  function Batch(events: map<Id, Event>, limit: nat): seq<Id> {
    var ids := Ascending(events.Keys);
    if limit < |ids| then ids[..limit] else ids
  }

  /** `status` is None when the POST raises. */
  function AfterFlush(events: map<Id, Event>, limit: nat, status: Option<nat>): map<Id, Event> {
    if status.Some? && status.value < 400 then events - Elements(Batch(events, limit)) else events
  }

  function Flush(d: Device, limit: nat, status: Option<nat>): Device {
    d.(db := d.db.(events := AfterFlush(d.db.events, limit, status)))
  }

  // ---- One tick ----

  datatype World = World(stuck: set<Path>, manifest: ApiReply<Manifest>, media: Id -> BlobReply,
                         backgrounds: ApiReply<Backgrounds>, wall: VideoKind -> BlobReply,
                         slides: SlideServe, post: Option<nat>)

  const FETCH_LIMIT := 50
  const EVENT_BATCH := 50

  function Tick(d: Device, slug: string, w: World): Device {
    var (pulled, result) := Pull(d, w.stuck, w.manifest);
    match result
    case Raised => pulled
    case Refused(_) => Flush(pulled, EVENT_BATCH, w.post)
    case Pulled(_, _, _) =>
      var fetched := FetchPass(pulled, w.stuck, FETCH_LIMIT, w.media).0;
      Flush(SyncVideos(fetched, w.stuck, slug, w.backgrounds, w.wall, w.slides), EVENT_BATCH, w.post)
  }

  /** The stats of each phase that a tick ran; a refused pull skips the two fetch phases. */
  datatype Report = Report(manifest: PullResult, fetch: Option<Counts>, video: Option<VideoResult>, push: Push)

  /** None is the exception out of the pull. */
  function TickReport(d: Device, slug: string, w: World): Option<Report> {
    var (pulled, result) := Pull(d, w.stuck, w.manifest);
    match result
    case Raised => None
    case Refused(_) => Some(Report(result, None, None, PushReport(pulled.db.events, EVENT_BATCH, w.post)))
    case Pulled(_, _, _) =>
      var (fetched, c) := FetchPass(pulled, w.stuck, FETCH_LIMIT, w.media);
      var synced := SyncVideos(fetched, w.stuck, slug, w.backgrounds, w.wall, w.slides);
      Some(Report(result, Some(c),
                  Some(VideoReport(fetched, w.stuck, slug, w.backgrounds, w.wall, w.slides)),
                  PushReport(synced.db.events, EVENT_BATCH, w.post)))
  }

  function Ticks(d: Device, slug: string, ws: seq<World>): Device {
    if ws == [] then d else Tick(Ticks(d, slug, ws[..|ws| - 1]), slug, ws[|ws| - 1])
  }
}
