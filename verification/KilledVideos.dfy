/** The video phase killed anywhere: every state it passes through, and that none of them
    touches anything but video records and video files. */
module KilledVideos {
  import opened Basics
  import opened LocalCache
  import opened SyncEngine
  import opened BackgroundVideos

  /** What the interrupted handling of one file has done so far: nothing that lasts, or deleted
      the record but not yet the file, or written the first bytes. */
  datatype Half = Untouched | RecordGone | Torn(bytes: nat)

  /** How far the phase got. */
  datatype VideoPoint =
    | NoVideos                                         // no backgrounds to act on
    | AtWall(k: nat, half: Half)                       // k wall parts handled
    | AtSlide(j: nat, k: nat, half: Half)              // entries before j handled, and k parts of entry j
    | AtPurge(dropped: set<Id>, next: Option<(Id, set<Path>)>)  // ids dropped; of one more the records and some files

  predicate HasBackgrounds(slug: string, w: World) {
    slug != "" && w.backgrounds.Answer? && w.backgrounds.code < 400 && w.backgrounds.body.Some?
  }

  // ---- How far each stage has come ----

  /** The first k wall parts handled, fetched or dropped. */
  function WallSoFar(d: Device, w: World, k: nat): Device
    requires w.backgrounds.Answer? && w.backgrounds.body.Some? && k <= |PARTS|
  {
    var b := w.backgrounds.body.value;
    if b.wall.None? then PurgeWall(d, w.stuck, PARTS[..k])
    else SyncParts(d, w.stuck, None, b.wall.value, PARTS[..k], w.wall, ZERO).0
  }

  /** All of the wall, and the entries before j. */
  function SlidesSoFar(d: Device, w: World, j: nat): Device
    requires w.backgrounds.Answer? && w.backgrounds.body.Some? && j <= |w.backgrounds.body.value.slides|
  {
    SyncSlides(WallSoFar(d, w, |PARTS|), w.stuck, w.backgrounds.body.value.slides[..j], 0, w.slides, ZERO).0
  }

  /** And k parts of entry j. */
  function PartsSoFar(d: Device, w: World, j: nat, k: nat): Device
    requires w.backgrounds.Answer? && w.backgrounds.body.Some?
    requires j < |w.backgrounds.body.value.slides| && PerId(w.backgrounds.body.value.slides[j]) && k <= |PARTS|
  {
    var s := w.backgrounds.body.value.slides[j];
    SyncParts(SlidesSoFar(d, w, j), w.stuck, Some(s.id.n), s.urls, PARTS[..k], p => w.slides(j, p), ZERO).0
  }

  function Stale(d: Device, w: World): set<Id>
    requires w.backgrounds.Answer? && w.backgrounds.body.Some?
  {
    var slides := w.backgrounds.body.value.slides;
    StaleIds(SlidesSoFar(d, w, |slides|).db.videos, KeepIds(slides))
  }

  function PurgeSoFar(d: Device, w: World, dropped: set<Id>): Device
    requires w.backgrounds.Answer? && w.backgrounds.body.Some?
  {
    DropRotation(SlidesSoFar(d, w, |w.backgrounds.body.value.slides|), w.stuck, dropped)
  }

  // ---- One part interrupted ----

  predicate Interrupts(url: string, reply: BlobReply, half: Half) {
    match half
    case Untouched => true
    case RecordGone => url == "" || (reply.Reply? && reply.code == 404)
    case Torn(bytes) => url != "" && reply.Reply? && reply.code < 400 && reply.code != 304 && bytes <= |reply.body|
  }

  function InterruptedPart(d: Device, slot: Slot, url: string, reply: BlobReply, half: Half): Device
    requires Interrupts(url, reply, half)
  {
    match half
    case Untouched => d
    case RecordGone => d.(db := d.db.(videos := d.db.videos - {slot}))
    case Torn(bytes) => d.(files := d.files[VideoFile(slot) := reply.body[..bytes]])
  }

  lemma InterruptedIsLocal(d: Device, slot: Slot, url: string, reply: BlobReply, half: Half)
    requires Own(d) && Interrupts(url, reply, half)
    ensures
      var left := InterruptedPart(d, slot, url, reply, half);
      Own(left) && OnlyParts(d, left, iset{slot})
  {
  }

  // ---- The phase killed at a point ----

  function WallUrl(w: World, k: VideoKind): string
    requires w.backgrounds.Answer? && w.backgrounds.body.Some?
  {
    if w.backgrounds.body.value.wall.None? then "" else UrlOf(w.backgrounds.body.value.wall.value, k)
  }

  ghost predicate VideosPossible(d: Device, slug: string, w: World, at: VideoPoint) {
    match at
    case NoVideos => !HasBackgrounds(slug, w)
    case AtWall(k, half) =>
      && HasBackgrounds(slug, w) && k <= |PARTS|
      && (half.Untouched? || (k < |PARTS| && Interrupts(WallUrl(w, PARTS[k]), w.wall(PARTS[k]), half)))
    case AtSlide(j, k, half) =>
      && HasBackgrounds(slug, w) && j < |w.backgrounds.body.value.slides|
      && PerId(w.backgrounds.body.value.slides[j]) && k <= |PARTS|
      && (half.Untouched? || (k < |PARTS| && Interrupts(UrlOf(w.backgrounds.body.value.slides[j].urls, PARTS[k]),
                                                        w.slides(j, PARTS[k]), half)))
    case AtPurge(dropped, next) =>
      && HasBackgrounds(slug, w) && dropped <= Stale(d, w)
      && (next.Some? ==> next.value.0 in Stale(d, w) - dropped
                         && next.value.1 <= FilesOf(PurgeSoFar(d, w, dropped), next.value.0))
  }

  /** The files that the records of a rotation video name. */
  function FilesOf(d: Device, id: Id): set<Path> {
    PathsOf(d.db.videos, PartsOf(d.db.videos, {id}))
  }

  /** The records of one id are deleted, and the files in `gone`. */
  function HalfDropped(d: Device, id: Id, gone: set<Path>): Device {
    Device(d.db.(videos := d.db.videos - PartsOf(d.db.videos, {id})), d.files - gone)
  }

  function VideosKilled(d: Device, slug: string, w: World, at: VideoPoint): Device
    requires VideosPossible(d, slug, w, at)
  {
    match at
    case NoVideos => d
    case AtWall(k, half) =>
      var before := WallSoFar(d, w, k);
      if half.Untouched? then before
      else InterruptedPart(before, Wall(PARTS[k]), WallUrl(w, PARTS[k]), w.wall(PARTS[k]), half)
    case AtSlide(j, k, half) =>
      var (before, s) := (PartsSoFar(d, w, j, k), w.backgrounds.body.value.slides[j]);
      if half.Untouched? then before
      else InterruptedPart(before, Rotation(s.id.n, PARTS[k]), UrlOf(s.urls, PARTS[k]), w.slides(j, PARTS[k]), half)
    case AtPurge(dropped, next) =>
      var before := PurgeSoFar(d, w, dropped);
      if next.None? then before else HalfDropped(before, next.value.0, next.value.1)
  }

  // ---- What survives ----

  /** Of the whole device only video records and video files may differ. */
  ghost predicate OnlyVideos(d: Device, d': Device) {
    d'.db == d.db.(videos := d'.db.videos) && SameMediaFiles(d, d')
  }

  lemma WallSoFarIsLocal(d: Device, w: World, k: nat)
    requires Own(d) && w.backgrounds.Answer? && w.backgrounds.body.Some? && k <= |PARTS|
    ensures Own(WallSoFar(d, w, k)) && OnlyVideos(d, WallSoFar(d, w, k))
  {
    if w.backgrounds.body.value.wall.None? {
      WallPurgeIsLocal(d, w.stuck, PARTS[..k]);
    } else {
      PartsStayLocal(d, w.stuck, None, w.backgrounds.body.value.wall.value, PARTS[..k], w.wall, ZERO);
    }
  }

  lemma SlidesSoFarAreLocal(d: Device, w: World, j: nat)
    requires Own(d) && w.backgrounds.Answer? && w.backgrounds.body.Some? && j <= |w.backgrounds.body.value.slides|
    ensures Own(SlidesSoFar(d, w, j)) && OnlyVideos(d, SlidesSoFar(d, w, j))
  {
    WallSoFarIsLocal(d, w, |PARTS|);
    SlidesStayListed(WallSoFar(d, w, |PARTS|), w.stuck, w.backgrounds.body.value.slides[..j], 0, w.slides, ZERO);
  }

  lemma PartsSoFarAreLocal(d: Device, w: World, j: nat, k: nat)
    requires Own(d) && w.backgrounds.Answer? && w.backgrounds.body.Some?
    requires j < |w.backgrounds.body.value.slides| && PerId(w.backgrounds.body.value.slides[j]) && k <= |PARTS|
    ensures Own(PartsSoFar(d, w, j, k)) && OnlyVideos(d, PartsSoFar(d, w, j, k))
  {
    var s := w.backgrounds.body.value.slides[j];
    SlidesSoFarAreLocal(d, w, j);
    PartsStayLocal(SlidesSoFar(d, w, j), w.stuck, Some(s.id.n), s.urls, PARTS[..k], p => w.slides(j, p), ZERO);
  }

  lemma PurgeSoFarIsLocal(d: Device, w: World, dropped: set<Id>)
    requires Own(d) && w.backgrounds.Answer? && w.backgrounds.body.Some?
    ensures Own(PurgeSoFar(d, w, dropped)) && OnlyVideos(d, PurgeSoFar(d, w, dropped))
  {
    var all := |w.backgrounds.body.value.slides|;
    SlidesSoFarAreLocal(d, w, all);
  }

  lemma HalfDroppedIsLocal(d: Device, id: Id, gone: set<Path>)
    requires Own(d) && gone <= FilesOf(d, id)
    ensures Own(HalfDropped(d, id, gone)) && OnlyVideos(d, HalfDropped(d, id, gone))
  {
    forall p | p in gone ensures p.VideoFile? {
      var s :| s in PartsOf(d.db.videos, {id}) && d.db.videos[s].path == p;
    }
  }

  /** Wherever the video phase is killed, every video record left names its own file, and mirror,
      queue, media records and media files are untouched. */
  lemma KilledVideosStayInTheirLane(d: Device, slug: string, w: World, at: VideoPoint)
    requires Own(d) && VideosPossible(d, slug, w, at)
    ensures Own(VideosKilled(d, slug, w, at)) && OnlyVideos(d, VideosKilled(d, slug, w, at))
  {
    match at
    case NoVideos =>
    case AtWall(k, half) =>
      WallSoFarIsLocal(d, w, k);
      if !half.Untouched? {
        InterruptedIsLocal(WallSoFar(d, w, k), Wall(PARTS[k]), WallUrl(w, PARTS[k]), w.wall(PARTS[k]), half);
      }
    case AtSlide(j, k, half) =>
      PartsSoFarAreLocal(d, w, j, k);
      if !half.Untouched? {
        var s := w.backgrounds.body.value.slides[j];
        InterruptedIsLocal(PartsSoFar(d, w, j, k), Rotation(s.id.n, PARTS[k]), UrlOf(s.urls, PARTS[k]),
                           w.slides(j, PARTS[k]), half);
      }
    case AtPurge(dropped, next) =>
      PurgeSoFarIsLocal(d, w, dropped);
      if next.Some? {
        HalfDroppedIsLocal(PurgeSoFar(d, w, dropped), next.value.0, next.value.1);
      }
  }

  /** The last point of the phase is its end. */
  function LastPoint(d: Device, slug: string, w: World): VideoPoint {
    if HasBackgrounds(slug, w) then AtPurge(Stale(d, w), None) else NoVideos
  }

  lemma LastPointIsTheEnd(d: Device, slug: string, w: World)
    ensures VideosPossible(d, slug, w, LastPoint(d, slug, w))
    ensures VideosKilled(d, slug, w, LastPoint(d, slug, w))
         == SyncVideos(d, w.stuck, slug, w.backgrounds, w.wall, w.slides)
  {
    if HasBackgrounds(slug, w) {
      assert PARTS[..|PARTS|] == PARTS;
      var slides := w.backgrounds.body.value.slides;
      assert slides[..|slides|] == slides;
    }
  }
}
