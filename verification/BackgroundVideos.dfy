/** The background-video mirror: which records and files one sync may change, and what
    it leaves for every listed part. */
module BackgroundVideos {
  import opened Basics
  import opened LocalCache
  import opened SyncEngine

  /** Every video record names the file of its own slot. */
  ghost predicate Own(d: Device) {
    forall s | s in d.db.videos :: d.db.videos[s].path == VideoFile(s)
  }

  predicate Owns(owner: Option<Id>, s: Slot) {
    if owner.None? then s.Wall? else s.Rotation? && s.id == owner.value
  }

  function FileAt(files: Files, p: Path): Option<Bytes> {
    if p in files then Some(files[p]) else None
  }

  /** What the device holds for one slot: its record and the contents of its file. */
  datatype Part = Part(record: Option<Blob>, file: Option<Bytes>)

  function PartAt(d: Device, s: Slot): Part {
    Part(if s in d.db.videos then Some(d.db.videos[s]) else None, FileAt(d.files, VideoFile(s)))
  }

  ghost predicate SameMediaFiles(d: Device, d': Device) {
    forall i :: (MediaFile(i) in d.files <==> MediaFile(i) in d'.files)
                && (MediaFile(i) in d.files ==> d.files[MediaFile(i)] == d'.files[MediaFile(i)])
  }

  /** Of the whole device only the parts of slots in `touched` may differ. */
  ghost predicate OnlyParts(d: Device, d': Device, touched: iset<Slot>) {
    && d'.db == d.db.(videos := d'.db.videos)
    && SameMediaFiles(d, d')
    && (forall s | s !in touched :: PartAt(d', s) == PartAt(d, s))
  }

  ghost function SlotsOf(owner: Option<Id>): iset<Slot> {
    iset s | Owns(owner, s)
  }

  // ---- One part ----

  function PartStep(d: Device, stuck: set<Path>, slot: Slot, url: string, reply: BlobReply): Device {
    if url == "" then PurgePart(d, stuck, slot) else DownloadPart(d, stuck, slot, reply).0
  }

  lemma PurgeIsLocal(d: Device, stuck: set<Path>, slot: Slot)
    requires Own(d)
    ensures Own(PurgePart(d, stuck, slot)) && OnlyParts(d, PurgePart(d, stuck, slot), iset{slot})
  {
  }

  lemma DownloadIsLocal(d: Device, stuck: set<Path>, slot: Slot, reply: BlobReply)
    requires Own(d)
    ensures Own(DownloadPart(d, stuck, slot, reply).0)
    ensures OnlyParts(d, DownloadPart(d, stuck, slot, reply).0, iset{slot})
  {
    if reply.Reply? && reply.code == 404 {
      PurgeIsLocal(d, stuck, slot);
    } else if reply.Reply? && reply.code < 400 && reply.code != 304 {
      forall q | q != VideoFile(slot)
        ensures
          var files' := Save(d.files, stuck, VideoFile(slot), reply.body, reply.disk).files;
          (q in files' <==> q in d.files) && (q in d.files ==> files'[q] == d.files[q])
      {
      }
    }
  }

  lemma PartStepIsLocal(d: Device, stuck: set<Path>, slot: Slot, url: string, reply: BlobReply)
    requires Own(d)
    ensures Own(PartStep(d, stuck, slot, url, reply))
    ensures OnlyParts(d, PartStep(d, stuck, slot, url, reply), iset{slot})
  {
    if url == "" { PurgeIsLocal(d, stuck, slot); } else { DownloadIsLocal(d, stuck, slot, reply); }
  }

  lemma PurgeDependsOnSlot(d: Device, e: Device, stuck: set<Path>, slot: Slot)
    requires Own(d) && Own(e) && PartAt(d, slot) == PartAt(e, slot)
    ensures PartAt(PurgePart(d, stuck, slot), slot) == PartAt(PurgePart(e, stuck, slot), slot)
  {
  }

  lemma SaveDependsOnFile(f: Files, g: Files, stuck: set<Path>, p: Path, body: Bytes, disk: Disk)
    requires FileAt(f, p) == FileAt(g, p)
    ensures
      var (s, t) := (Save(f, stuck, p, body, disk), Save(g, stuck, p, body, disk));
      s.ok == t.ok && FileAt(s.files, p) == FileAt(t.files, p)
  {
  }

  lemma DownloadDependsOnSlot(d: Device, e: Device, stuck: set<Path>, slot: Slot, reply: BlobReply)
    requires Own(d) && Own(e) && PartAt(d, slot) == PartAt(e, slot)
    ensures PartAt(DownloadPart(d, stuck, slot, reply).0, slot) == PartAt(DownloadPart(e, stuck, slot, reply).0, slot)
  {
    if reply.Reply? && reply.code == 404 {
      PurgeDependsOnSlot(d, e, stuck, slot);
    } else if reply.Reply? && reply.code < 400 && reply.code != 304 {
      SaveDependsOnFile(d.files, e.files, stuck, VideoFile(slot), reply.body, reply.disk);
    }
  }

  /** The outcome for a slot depends on nothing but that slot. */
  lemma PartStepDependsOnSlot(d: Device, e: Device, stuck: set<Path>, slot: Slot, url: string, reply: BlobReply)
    requires Own(d) && Own(e) && PartAt(d, slot) == PartAt(e, slot)
    ensures PartAt(PartStep(d, stuck, slot, url, reply), slot) == PartAt(PartStep(e, stuck, slot, url, reply), slot)
  {
    if url == "" { PurgeDependsOnSlot(d, e, stuck, slot); } else { DownloadDependsOnSlot(d, e, stuck, slot, reply); }
  }

  /** A record survives with its file lost or empty exactly when a 2xx/3xx download
      other than 304 ends with nothing usable on disk: the file is overwritten before
      the size is known, and the record of the earlier download is not revisited. */
  predicate LosesFile(stuck: set<Path>, slot: Slot, reply: BlobReply) {
    && reply.Reply? && reply.code < 400 && reply.code != 304
    && match reply.disk
       case OpenFails => false
       case WriteFailsAfter(n) => n == 0 || reply.body == []
       case WriteOk => reply.body == []
       case StatFails => reply.body == [] || VideoFile(slot) !in stuck
  }

  lemma RecordOutlivesFile(d: Device, stuck: set<Path>, slot: Slot, reply: BlobReply)
    requires Own(d) && slot in d.db.videos && NonEmptyFile(d.files, VideoFile(slot))
    ensures
      var d' := DownloadPart(d, stuck, slot, reply).0;
      slot in d'.db.videos && !NonEmptyFile(d'.files, VideoFile(slot)) <==> LosesFile(stuck, slot, reply)
  {
    if reply.Reply? && reply.disk.WriteFailsAfter? && reply.disk.n < |reply.body| {
      assert |reply.body[..reply.disk.n]| == reply.disk.n;
    }
  }

  // ---- The parts of one video ----

  function Present(urls: Urls, parts: seq<VideoKind>): nat {
    if parts == [] then 0 else (if UrlOf(urls, parts[0]) == "" then 0 else 1) + Present(urls, parts[1..])
  }

  function Total(c: Counts): nat {
    c.fetched + c.skipped + c.errored
  }

  ghost predicate NoRepeatedParts(parts: seq<VideoKind>) {
    forall i, j | 0 <= i < j < |parts| :: parts[i] != parts[j]
  }

  lemma {:induction false} PartsStayLocal(d: Device, stuck: set<Path>, owner: Option<Id>, urls: Urls,
                                          parts: seq<VideoKind>, serve: VideoKind -> BlobReply, c: Counts)
    requires Own(d)
    ensures
      var (d', c') := SyncParts(d, stuck, owner, urls, parts, serve, c);
      && Own(d') && OnlyParts(d, d', SlotsOf(owner))
      && Total(c') == Total(c) + Present(urls, parts)
      && (forall k | k !in parts :: PartAt(d', SlotOf(owner, k)) == PartAt(d, SlotOf(owner, k)))
    decreases |parts|
  {
    if parts != [] {
      var k0 := parts[0];
      var slot := SlotOf(owner, k0);
      var d1 := PartStep(d, stuck, slot, UrlOf(urls, k0), serve(k0));
      var c1 := if UrlOf(urls, k0) == "" then c else Count(c, DownloadPart(d, stuck, slot, serve(k0)).1);
      PartStepIsLocal(d, stuck, slot, UrlOf(urls, k0), serve(k0));
      PartsStayLocal(d1, stuck, owner, urls, parts[1..], serve, c1);
    }
  }

  /** Each part of a video ends as if it had been handled alone. */
  lemma {:induction false} PartsAreIndependent(d: Device, stuck: set<Path>, owner: Option<Id>, urls: Urls,
                                               parts: seq<VideoKind>, serve: VideoKind -> BlobReply, c: Counts)
    requires Own(d) && NoRepeatedParts(parts)
    ensures
      var (d', c') := SyncParts(d, stuck, owner, urls, parts, serve, c);
      && Own(d') && OnlyParts(d, d', SlotsOf(owner))
      && Total(c') == Total(c) + Present(urls, parts)
      && (forall k | k !in parts :: PartAt(d', SlotOf(owner, k)) == PartAt(d, SlotOf(owner, k)))
      && (forall k | k in parts :: PartAt(d', SlotOf(owner, k))
            == PartAt(PartStep(d, stuck, SlotOf(owner, k), UrlOf(urls, k), serve(k)), SlotOf(owner, k)))
    decreases |parts|
  {
    PartsStayLocal(d, stuck, owner, urls, parts, serve, c);
    if parts != [] {
      var k0 := parts[0];
      var slot := SlotOf(owner, k0);
      var d1 := PartStep(d, stuck, slot, UrlOf(urls, k0), serve(k0));
      var c1 := if UrlOf(urls, k0) == "" then c else Count(c, DownloadPart(d, stuck, slot, serve(k0)).1);
      PartStepIsLocal(d, stuck, slot, UrlOf(urls, k0), serve(k0));
      PartsAreIndependent(d1, stuck, owner, urls, parts[1..], serve, c1);
      assert k0 !in parts[1..];
      forall k | k in parts && k != k0
        ensures k in parts[1..]
        ensures PartAt(PartStep(d1, stuck, SlotOf(owner, k), UrlOf(urls, k), serve(k)), SlotOf(owner, k))
             == PartAt(PartStep(d, stuck, SlotOf(owner, k), UrlOf(urls, k), serve(k)), SlotOf(owner, k))
      {
        PartStepDependsOnSlot(d, d1, stuck, SlotOf(owner, k), UrlOf(urls, k), serve(k));
      }
    }
  }

  // ---- The whole rotation ----

  /** No other entry has the id of entry j. */
  ghost predicate OnlyEntry(slides: seq<Slide>, j: nat)
    requires j < |slides| && PerId(slides[j])
  {
    forall i | 0 <= i < |slides| && i != j && PerId(slides[i]) :: slides[i].id != slides[j].id
  }

  function PresentFrom(slides: seq<Slide>, k: nat): nat
    requires k <= |slides|
    decreases |slides| - k
  {
    if k == |slides| then 0
    else (if PerId(slides[k]) then Present(slides[k].urls, PARTS) else 0) + PresentFrom(slides, k + 1)
  }

  ghost function ListedFrom(slides: seq<Slide>, k: nat): iset<Slot>
    requires k <= |slides|
  {
    iset s: Slot | s.Rotation? && exists j :: k <= j < |slides| && PerId(slides[j]) && slides[j].id.n == s.id
  }

  /** What handling entry j, part p, on its own would leave. */
  function Alone(d: Device, stuck: set<Path>, slides: seq<Slide>, j: nat, p: VideoKind, serve: SlideServe): Part
    requires j < |slides| && PerId(slides[j])
  {
    var slot := Rotation(slides[j].id.n, p);
    PartAt(PartStep(d, stuck, slot, UrlOf(slides[j].urls, p), serve(j, p)), slot)
  }

  /** Entry k alone: what it leaves, in terms of `PARTS` only. */
  lemma OneSlide(d: Device, stuck: set<Path>, slides: seq<Slide>, k: nat, serve: SlideServe, c: Counts)
    requires Own(d) && k < |slides| && PerId(slides[k])
    ensures
      var (d1, c1) := SyncParts(d, stuck, Some(slides[k].id.n), slides[k].urls, PARTS, p => serve(k, p), c);
      && Own(d1) && OnlyParts(d, d1, SlotsOf(Some(slides[k].id.n)))
      && Total(c1) == Total(c) + Present(slides[k].urls, PARTS)
      && forall p :: PartAt(d1, Rotation(slides[k].id.n, p)) == Alone(d, stuck, slides, k, p, serve)
  {
    PartsAreIndependent(d, stuck, Some(slides[k].id.n), slides[k].urls, PARTS, p => serve(k, p), c);
    forall p: VideoKind ensures p in PARTS {
      match p
      case Webm => assert PARTS[0] == p;
      case Mp4 => assert PARTS[1] == p;
      case Poster => assert PARTS[2] == p;
    }
  }

  lemma {:induction false} SlidesStayListed(d: Device, stuck: set<Path>, slides: seq<Slide>, k: nat,
                                            serve: SlideServe, c: Counts)
    requires Own(d) && k <= |slides|
    ensures
      var (d', c') := SyncSlides(d, stuck, slides, k, serve, c);
      Own(d') && OnlyParts(d, d', ListedFrom(slides, k)) && Total(c') == Total(c) + PresentFrom(slides, k)
    decreases |slides| - k
  {
    if k < |slides| {
      if !PerId(slides[k]) {
        SlidesStayListed(d, stuck, slides, k + 1, serve, c);
        assert ListedFrom(slides, k) == ListedFrom(slides, k + 1);
      } else {
        var id := slides[k].id.n;
        var (d1, c1) := SyncParts(d, stuck, Some(id), slides[k].urls, PARTS, p => serve(k, p), c);
        OneSlide(d, stuck, slides, k, serve, c);
        SlidesStayListed(d1, stuck, slides, k + 1, serve, c1);
      }
    }
  }

  lemma {:induction false} SlidesAreIndependent(d: Device, stuck: set<Path>, slides: seq<Slide>, k: nat,
                                                serve: SlideServe, c: Counts, j: nat, p: VideoKind)
    requires Own(d) && k <= j < |slides| && PerId(slides[j]) && OnlyEntry(slides, j)
    ensures PartAt(SyncSlides(d, stuck, slides, k, serve, c).0, Rotation(slides[j].id.n, p))
         == Alone(d, stuck, slides, j, p, serve)
    decreases |slides| - k
  {
    if !PerId(slides[k]) {
      SlidesAreIndependent(d, stuck, slides, k + 1, serve, c, j, p);
    } else {
      var (d1, c1) := SyncParts(d, stuck, Some(slides[k].id.n), slides[k].urls, PARTS, p => serve(k, p), c);
      OneSlide(d, stuck, slides, k, serve, c);
      SlidesStayListed(d1, stuck, slides, k + 1, serve, c1);
      if k < j {
        SlidesAreIndependent(d1, stuck, slides, k + 1, serve, c1, j, p);
      }
      SlideAlone(d, d1, SyncSlides(d1, stuck, slides, k + 1, serve, c1).0, stuck, slides, k, j, p, serve);
    }
  }

  lemma SlideAlone(d: Device, d1: Device, d': Device, stuck: set<Path>, slides: seq<Slide>, k: nat, j: nat,
                   p: VideoKind, serve: SlideServe)
    requires k <= j < |slides| && PerId(slides[k]) && PerId(slides[j]) && OnlyEntry(slides, j)
    requires Own(d) && Own(d1)
    requires OnlyParts(d, d1, SlotsOf(Some(slides[k].id.n)))
    requires OnlyParts(d1, d', ListedFrom(slides, k + 1))
    requires PartAt(d1, Rotation(slides[k].id.n, p)) == Alone(d, stuck, slides, k, p, serve)
    requires k < j ==> PartAt(d', Rotation(slides[j].id.n, p)) == Alone(d1, stuck, slides, j, p, serve)
    ensures PartAt(d', Rotation(slides[j].id.n, p)) == Alone(d, stuck, slides, j, p, serve)
  {
    var slot := Rotation(slides[j].id.n, p);
    if j == k {
      assert slot !in ListedFrom(slides, k + 1);
    } else {
      assert slides[k].id != slides[j].id;
      assert slot !in SlotsOf(Some(slides[k].id.n));
      PartStepDependsOnSlot(d, d1, stuck, slot, UrlOf(slides[j].urls, p), serve(j, p));
    }
  }

  /** Only listed ids keep rotation records, and nothing of the designated wall video,
      of the media cache or of the rest of the database has moved. */
  ghost predicate OnlyListedRemain(d: Device, d': Device, slides: seq<Slide>) {
    && Own(d')
    && (forall s | s in d'.db.videos && s.Rotation? :: s.id in KeepIds(slides))
    && d'.db == d.db.(videos := d'.db.videos)
    && SameMediaFiles(d, d')
    && (forall k :: PartAt(d', Wall(k)) == PartAt(d, Wall(k)))
  }

  lemma DropFrame(d: Device, d1: Device, stuck: set<Path>, slides: seq<Slide>)
    requires Own(d1) && OnlyParts(d, d1, ListedFrom(slides, 0))
    ensures StaleIds(d1.db.videos, KeepIds(slides)) == StaleIds(d.db.videos, KeepIds(slides))
    ensures OnlyListedRemain(d, DropRotation(d1, stuck, StaleIds(d1.db.videos, KeepIds(slides))), slides)
  {
    SameStale(d, d1, slides);
    var stale := StaleIds(d1.db.videos, KeepIds(slides));
    var d' := DropRotation(d1, stuck, stale);
    forall s | s in d'.db.videos && s.Rotation? ensures s.id in KeepIds(slides) {
      assert s in d1.db.videos && s.id !in stale;
    }
    forall k ensures PartAt(d', Wall(k)) == PartAt(d, Wall(k)) {
      assert PartAt(d', Wall(k)) == PartAt(d1, Wall(k));
    }
  }

  /** Rotation sync, for every list and every behaviour of backend and disk: only listed
      ids remain and nothing else moves; the count of purged ids is the number of distinct
      ids that had records and are not listed; every present part is counted once. */
  lemma RotationMirrorsTheList(d: Device, stuck: set<Path>, slides: seq<Slide>, serve: SlideServe)
    requires Own(d)
    ensures OnlyListedRemain(d, SyncRotation(d, stuck, slides, serve).0, slides)
    ensures SyncRotation(d, stuck, slides, serve).1.purged == |StaleIds(d.db.videos, KeepIds(slides))|
    ensures Total(SyncRotation(d, stuck, slides, serve).1.counts) == PresentFrom(slides, 0)
  {
    SlidesStayListed(d, stuck, slides, 0, serve, ZERO);
    DropFrame(d, SyncSlides(d, stuck, slides, 0, serve, ZERO).0, stuck, slides);
  }

  /** With no other entry for its id each listed part ends as if it had been handled alone. */
  lemma ListedPartsAreIndependent(d: Device, stuck: set<Path>, slides: seq<Slide>, serve: SlideServe, j: nat,
                                  p: VideoKind)
    requires Own(d) && j < |slides| && PerId(slides[j]) && OnlyEntry(slides, j)
    ensures PartAt(SyncRotation(d, stuck, slides, serve).0, Rotation(slides[j].id.n, p))
         == Alone(d, stuck, slides, j, p, serve)
  {
    var d1 := SyncSlides(d, stuck, slides, 0, serve, ZERO).0;
    SlidesStayListed(d, stuck, slides, 0, serve, ZERO);
    SlidesAreIndependent(d, stuck, slides, 0, serve, ZERO, j, p);
    ListedIsNotStale(d1, slides, j);
  }

  lemma ListedIsNotStale(d: Device, slides: seq<Slide>, j: nat)
    requires j < |slides| && PerId(slides[j])
    ensures slides[j].id.n !in StaleIds(d.db.videos, KeepIds(slides))
  {
    assert slides[j].id.n in KeepIds(slides);
  }

  lemma SameStale(d: Device, d1: Device, slides: seq<Slide>)
    requires OnlyParts(d, d1, ListedFrom(slides, 0))
    ensures StaleIds(d1.db.videos, KeepIds(slides)) == StaleIds(d.db.videos, KeepIds(slides))
  {
    var keep := KeepIds(slides);
    forall s: Slot | s.Rotation? && s.id !in keep ensures s in d.db.videos <==> s in d1.db.videos {
      assert s !in ListedFrom(slides, 0);
      assert PartAt(d, s) == PartAt(d1, s);
    }
  }

  /** A listed part whose URL is gone, or that is answered 404, keeps no record; one served
      whole is on disk as served; one answered 304, or refused in any other way, is
      untouched. */
  lemma PartsEndAsServed(d: Device, stuck: set<Path>, slides: seq<Slide>, serve: SlideServe, j: nat, p: VideoKind)
    requires Own(d) && j < |slides| && PerId(slides[j]) && OnlyEntry(slides, j)
    ensures
      var slot := Rotation(slides[j].id.n, p);
      var (url, reply) := (UrlOf(slides[j].urls, p), serve(j, p));
      var end := PartAt(SyncRotation(d, stuck, slides, serve).0, slot);
      && (url == "" ==> end.record == None)
      && (url != "" && reply.Reply? && reply.code == 404 ==> end.record == None)
      && (url != "" && reply.Reply? && reply.code < 400 && reply.code != 304 && reply.disk.WriteOk?
          && reply.body != [] ==>
            end == Part(Some(Blob(reply.etag, VideoFile(slot))), Some(reply.body)))
      && (url != "" && (reply.NoReply? || reply.code == 304 || (reply.code >= 400 && reply.code != 404)) ==>
            end == PartAt(d, slot))
  {
    ListedPartsAreIndependent(d, stuck, slides, serve, j, p);
  }

  // ---- Both halves of the video phase ----

  lemma {:induction false} WallPurgeIsLocal(d: Device, stuck: set<Path>, parts: seq<VideoKind>)
    requires Own(d)
    ensures Own(PurgeWall(d, stuck, parts)) && OnlyParts(d, PurgeWall(d, stuck, parts), SlotsOf(None))
    decreases |parts|
  {
    if parts != [] {
      var d1 := PurgePart(d, stuck, Wall(parts[0]));
      PartStepIsLocal(d, stuck, Wall(parts[0]), "", NoReply);
      WallPurgeIsLocal(d1, stuck, parts[1..]);
      assert iset{Wall(parts[0])} + SlotsOf(None) == SlotsOf(None);
    }
  }

  /** The video phase never touches the mirror, the queue or the media cache. */
  lemma VideosStayInTheirLane(d: Device, slug: string, w: World)
    requires Own(d)
    ensures
      var d' := SyncVideos(d, w.stuck, slug, w.backgrounds, w.wall, w.slides);
      Own(d') && d'.db == d.db.(videos := d'.db.videos) && SameMediaFiles(d, d')
  {
    if !(slug == "" || w.backgrounds.Unreachable? || w.backgrounds.code >= 400 || w.backgrounds.body.None?) {
      var b := w.backgrounds.body.value;
      if b.wall.None? {
        WallPurgeIsLocal(d, w.stuck, PARTS);
        RotationMirrorsTheList(PurgeWall(d, w.stuck, PARTS), w.stuck, b.slides, w.slides);
      } else {
        PartsAreIndependent(d, w.stuck, None, b.wall.value, PARTS, w.wall, ZERO);
        RotationMirrorsTheList(SyncParts(d, w.stuck, None, b.wall.value, PARTS, w.wall, ZERO).0,
                               w.stuck, b.slides, w.slides);
      }
    }
  }
}
