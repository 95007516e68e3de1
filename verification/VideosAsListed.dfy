/** The video phase read off its inputs: which entries of a reply are kept, how each file ends,
    and what the counts count, in terms of URLs, statuses and bytes alone. */
module VideosAsListed {
  import opened Basics
  import opened LocalCache
  import opened SyncEngine
  import opened BackgroundVideos

  // ---- Which entries are addressed by id ----

  lemma ContainsExactly(s: string, part: string)
    ensures Contains(s, part) <==> exists a, b :: s == a + part + b
  {
    if i :| 0 <= i <= |s| && part <= s[i..] {
      assert s == s[..i] + part + s[i + |part|..];
    }
    if a, b :| s == a + part + b {
      assert s[|a|..] == part + b;
      assert part <= s[|a|..];
    }
  }

  /** A dict with a storable id whose video URL has `video_id=` anywhere in it. */
  ghost predicate Addressed(s: Slide, id: Id) {
    s.Slide? && s.id == RowId(id) && exists a, b :: s.urls.webm == a + "video_id=" + b
  }

  ghost predicate Listed(slides: seq<Slide>, id: Id) {
    exists j :: 0 <= j < |slides| && Addressed(slides[j], id)
  }

  lemma AddressedExactly(s: Slide, id: Id)
    ensures Addressed(s, id) <==> PerId(s) && s.id.n == id
  {
    if s.Slide? {
      ContainsExactly(s.urls.webm, "video_id=");
    }
  }

  lemma KeptExactly(slides: seq<Slide>, id: Id)
    ensures id in KeepIds(slides) <==> Listed(slides, id)
  {
    forall j | 0 <= j < |slides| ensures Addressed(slides[j], id) <==> PerId(slides[j]) && slides[j].id.n == id {
      AddressedExactly(slides[j], id);
    }
  }

  // ---- How one file ends ----

  predicate Refused(reply: BlobReply) {
    reply.NoReply? || reply.code == 304 || (reply.code >= 400 && reply.code != 404)
  }

  /** From its URL and its reply alone: no URL or a 404 drops record and file; a 304, a refusal or
      no reply changes nothing; any other answer overwrites the file, and makes a new record
      only if all of a non-empty body is known to be on disk. */
  ghost predicate EndsAs(before: Part, end: Part, slot: Slot, url: string, reply: BlobReply, stuck: set<Path>) {
    var kept := VideoFile(slot) in stuck;
    if url == "" || (reply.Reply? && reply.code == 404) then
      end == Part(None, if before.record.None? || kept then before.file else None)
    else if Refused(reply) then end == before
    else
      match reply.disk
      case OpenFails => end == before
      case WriteFailsAfter(n) =>
        end == Part(before.record, Some(if n < |reply.body| then reply.body[..n] else reply.body))
      case StatFails => end == Part(before.record, if kept then Some(reply.body) else None)
      case WriteOk =>
        if reply.body == [] then end == Part(before.record, if kept then Some([]) else None)
        else end == Part(Some(Blob(reply.etag, VideoFile(slot))), Some(reply.body))
  }

  lemma PartEndsAs(d: Device, stuck: set<Path>, slot: Slot, url: string, reply: BlobReply)
    requires Own(d)
    ensures EndsAs(PartAt(d, slot), PartAt(PartStep(d, stuck, slot, url, reply), slot), slot, url, reply, stuck)
  {
  }

  /** The three parts of one video, each by its own URL and its own reply. */
  ghost predicate VideoEndsAs(d: Device, d': Device, owner: Option<Id>, urls: Urls, serve: VideoKind -> BlobReply,
                              stuck: set<Path>) {
    && SlotEndsAs(d, d', OwnSlot(owner, Webm), urls.webm, serve(Webm), stuck)
    && SlotEndsAs(d, d', OwnSlot(owner, Mp4), urls.mp4, serve(Mp4), stuck)
    && SlotEndsAs(d, d', OwnSlot(owner, Poster), urls.poster, serve(Poster), stuck)
  }

  function OwnSlot(owner: Option<Id>, k: VideoKind): Slot {
    match owner
    case Some(id) => Rotation(id, k)
    case None => Wall(k)
  }

  ghost predicate SlotEndsAs(d: Device, d': Device, slot: Slot, url: string, reply: BlobReply, stuck: set<Path>) {
    EndsAs(PartAt(d, slot), PartAt(d', slot), slot, url, reply, stuck)
  }

  // ---- The rotation ----

  /** The only entry for an id decides how its three files end, wherever `video_id=` stands in
      its URL. */
  lemma RotationEndsAsServed(d: Device, stuck: set<Path>, slides: seq<Slide>, serve: SlideServe, j: nat, id: Id)
    requires Own(d) && j < |slides| && Addressed(slides[j], id)
    requires forall i | 0 <= i < |slides| && i != j :: !Addressed(slides[i], id)
    ensures VideoEndsAs(d, SyncRotation(d, stuck, slides, serve).0, Some(id), slides[j].urls, p => serve(j, p), stuck)
  {
    AddressedExactly(slides[j], id);
    forall i | 0 <= i < |slides| && i != j && PerId(slides[i]) ensures slides[i].id != slides[j].id {
      AddressedExactly(slides[i], id);
    }
    var d' := SyncRotation(d, stuck, slides, serve).0;
    forall p ensures EndsAs(PartAt(d, Rotation(id, p)), PartAt(d', Rotation(id, p)), Rotation(id, p),
                            UrlOf(slides[j].urls, p), serve(j, p), stuck)
    {
      ListedPartsAreIndependent(d, stuck, slides, serve, j, p);
      PartEndsAs(d, stuck, Rotation(id, p), UrlOf(slides[j].urls, p), serve(j, p));
    }
  }

  /** An id that no entry addresses keeps no record, and none of the files that its records
      named; only such ids are purged, each counted once. */
  lemma UnlistedIsPurged(d: Device, stuck: set<Path>, slides: seq<Slide>, serve: SlideServe)
    requires Own(d)
    ensures
      var (d', r) := SyncRotation(d, stuck, slides, serve);
      && (forall s: Slot | s.Rotation? && !Listed(slides, s.id) ::
            s !in d'.db.videos
            && (s in d.db.videos && VideoFile(s) !in stuck ==> VideoFile(s) !in d'.files))
      && r.purged == |set s | s in d.db.videos && s.Rotation? && !Listed(slides, s.id) :: s.id|
  {
    var d1 := SyncSlides(d, stuck, slides, 0, serve, ZERO).0;
    var d' := SyncRotation(d, stuck, slides, serve).0;
    RotationMirrorsTheList(d, stuck, slides, serve);
    SlidesStayListed(d, stuck, slides, 0, serve, ZERO);
    forall id ensures id in KeepIds(slides) <==> Listed(slides, id) {
      KeptExactly(slides, id);
    }
    forall s: Slot | s.Rotation? && !Listed(slides, s.id) && s in d.db.videos && VideoFile(s) !in stuck
      ensures VideoFile(s) !in d'.files
    {
      assert s !in ListedFrom(slides, 0);
      assert PartAt(d1, s) == PartAt(d, s);
      assert s in PartsOf(d1.db.videos, StaleIds(d1.db.videos, KeepIds(slides)));
      assert d1.db.videos[s].path == VideoFile(s);
    }
    assert StaleIds(d.db.videos, KeepIds(slides))
        == set s | s in d.db.videos && s.Rotation? && !Listed(slides, s.id) :: s.id;
  }

  // ---- What the counts count ----

  /** A part without URL is not counted; otherwise it is fetched if its bytes came and stayed,
      skipped on a 304, and errored in every other case. */
  ghost function Tally(url: string, reply: BlobReply): Counts {
    if url == "" then ZERO
    else if reply.Reply? && reply.code == 304 then Counts(0, 1, 0)
    else if reply.Reply? && reply.code < 400 && reply.disk.WriteOk? && reply.body != [] then Counts(1, 0, 0)
    else Counts(0, 0, 1)
  }

  function Plus(a: Counts, b: Counts): Counts {
    Counts(a.fetched + b.fetched, a.skipped + b.skipped, a.errored + b.errored)
  }

  function UrlIn(urls: Urls, k: VideoKind): string {
    match k
    case Webm => urls.webm
    case Mp4 => urls.mp4
    case Poster => urls.poster
  }

  ghost function PartsTally(urls: Urls, serve: VideoKind -> BlobReply, parts: seq<VideoKind>): Counts {
    if parts == [] then ZERO
    else Plus(Tally(UrlIn(urls, parts[0]), serve(parts[0])), PartsTally(urls, serve, parts[1..]))
  }

  ghost function VideoTally(urls: Urls, serve: VideoKind -> BlobReply): Counts {
    PartsTally(urls, serve, PARTS)
  }

  lemma PartTally(d: Device, stuck: set<Path>, slot: Slot, url: string, reply: BlobReply, c: Counts)
    ensures (if url == "" then c else Count(c, DownloadPart(d, stuck, slot, reply).1)) == Plus(c, Tally(url, reply))
  {
  }

  lemma {:induction false} PartsCounted(d: Device, stuck: set<Path>, owner: Option<Id>, urls: Urls,
                                        parts: seq<VideoKind>,
                                        serve: VideoKind -> BlobReply, c: Counts)
    ensures SyncParts(d, stuck, owner, urls, parts, serve, c).1 == Plus(c, PartsTally(urls, serve, parts))
    decreases |parts|
  {
    if parts != [] {
      var (slot, url, reply) := (SlotOf(owner, parts[0]), UrlOf(urls, parts[0]), serve(parts[0]));
      PartTally(d, stuck, slot, url, reply, c);
      PartsCounted(PartStep(d, stuck, slot, url, reply), stuck, owner, urls, parts[1..], serve,
                   Plus(c, Tally(url, reply)));
      PlusRegroups(c, Tally(url, reply), PartsTally(urls, serve, parts[1..]));
    }
  }

  lemma VideoCounts(d: Device, stuck: set<Path>, owner: Option<Id>, urls: Urls, serve: VideoKind -> BlobReply,
                    c: Counts)
    ensures SyncParts(d, stuck, owner, urls, PARTS, serve, c).1 == Plus(c, VideoTally(urls, serve))
  {
    PartsCounted(d, stuck, owner, urls, PARTS, serve, c);
  }

  /** The tallies of the addressed entries from entry k on. */
  ghost function TallyFrom(slides: seq<Slide>, k: nat, serve: SlideServe): Counts
    requires k <= |slides|
    decreases |slides| - k
  {
    if k == |slides| then ZERO
    else if exists id :: Addressed(slides[k], id)
    then Plus(VideoTally(slides[k].urls, p => serve(k, p)), TallyFrom(slides, k + 1, serve))
    else TallyFrom(slides, k + 1, serve)
  }

  lemma PlusRegroups(a: Counts, b: Counts, c: Counts)
    ensures Plus(Plus(a, b), c) == Plus(a, Plus(b, c))
  {
  }

  lemma TallyStep(slides: seq<Slide>, k: nat, serve: SlideServe)
    requires k < |slides|
    ensures TallyFrom(slides, k, serve)
         == if PerId(slides[k]) then Plus(VideoTally(slides[k].urls, p => serve(k, p)), TallyFrom(slides, k + 1, serve))
            else TallyFrom(slides, k + 1, serve)
  {
    forall id ensures Addressed(slides[k], id) <==> PerId(slides[k]) && slides[k].id.n == id {
      AddressedExactly(slides[k], id);
    }
    if PerId(slides[k]) {
      assert Addressed(slides[k], slides[k].id.n);
    }
  }

  lemma {:induction false} SlideCounts(d: Device, stuck: set<Path>, slides: seq<Slide>, k: nat, serve: SlideServe,
                                       c: Counts)
    requires k <= |slides|
    ensures SyncSlides(d, stuck, slides, k, serve, c).1 == Plus(c, TallyFrom(slides, k, serve))
    decreases |slides| - k
  {
    if k < |slides| {
      TallyStep(slides, k, serve);
      if PerId(slides[k]) {
        var (d1, c1) := SyncParts(d, stuck, Some(slides[k].id.n), slides[k].urls, PARTS, p => serve(k, p), c);
        VideoCounts(d, stuck, Some(slides[k].id.n), slides[k].urls, p => serve(k, p), c);
        SlideCounts(d1, stuck, slides, k + 1, serve, c1);
        PlusRegroups(c, VideoTally(slides[k].urls, p => serve(k, p)), TallyFrom(slides, k + 1, serve));
      } else {
        SlideCounts(d, stuck, slides, k + 1, serve, c);
      }
    }
  }

  /** The rotation's counts are the tallies of its addressed entries. */
  lemma RotationCounts(d: Device, stuck: set<Path>, slides: seq<Slide>, serve: SlideServe)
    ensures SyncRotation(d, stuck, slides, serve).1.counts == TallyFrom(slides, 0, serve)
  {
    SlideCounts(d, stuck, slides, 0, serve, ZERO);
  }

  // ---- The whole phase ----

  const NO_URLS := Urls("", "", "")

  /** Without a slug or a usable reply nothing changes and the report says why. Otherwise the
      wall's three files end by their URLs and replies, all dropped if there is no enabled
      video, and the report holds the counts. */
  lemma WallEndsAsServed(d: Device, slug: string, w: World)
    requires Own(d)
    ensures
      var d' := SyncVideos(d, w.stuck, slug, w.backgrounds, w.wall, w.slides);
      var r := VideoReport(d, w.stuck, slug, w.backgrounds, w.wall, w.slides);
      if slug == "" then d' == d && r == VideoFailed(NoSlug)
      else match w.backgrounds
        case Unreachable => d' == d && r == VideoFailed(VideoNetwork)
        case Answer(code, body) =>
          if code >= 400 then d' == d && r == VideoFailed(VideoHttp(code))
          else if body.None? then d' == d && r == VideoFailed(VideoNonJson)
          else if body.value.wall.None? then
            VideoEndsAs(d, d', None, NO_URLS, w.wall, w.stuck)
            && r.WallPurged? && r.purged == WallParts(d)
            && r.rotation.counts == TallyFrom(body.value.slides, 0, w.slides)
          else
            VideoEndsAs(d, d', None, body.value.wall.value, w.wall, w.stuck)
            && r.WallSynced? && r.counts == VideoTally(body.value.wall.value, w.wall)
            && r.rotation.counts == TallyFrom(body.value.slides, 0, w.slides)
  {
    if slug != "" && w.backgrounds.Answer? && w.backgrounds.code < 400 && w.backgrounds.body.Some? {
      var b := w.backgrounds.body.value;
      if b.wall.None? { NoWall(d, slug, w); } else { EnabledWall(d, slug, w); }
    }
  }

  /** How many wall parts have a record. */
  function WallParts(d: Device): nat {
    One(Wall(Webm) in d.db.videos) + One(Wall(Mp4) in d.db.videos) + One(Wall(Poster) in d.db.videos)
  }

  function One(b: bool): nat {
    if b then 1 else 0
  }

  predicate HasReply(slug: string, w: World) {
    slug != "" && w.backgrounds.Answer? && w.backgrounds.code < 400 && w.backgrounds.body.Some?
  }

  lemma NoWall(d: Device, slug: string, w: World)
    requires Own(d) && HasReply(slug, w) && w.backgrounds.body.value.wall.None?
    ensures VideoEndsAs(d, SyncVideos(d, w.stuck, slug, w.backgrounds, w.wall, w.slides), None, NO_URLS, w.wall,
                        w.stuck)
    ensures
      var r := VideoReport(d, w.stuck, slug, w.backgrounds, w.wall, w.slides);
      r.WallPurged? && r.purged == WallParts(d)
      && r.rotation.counts == TallyFrom(w.backgrounds.body.value.slides, 0, w.slides)
  {
    PurgedWall(d, w.stuck, w.wall);
    WallRecordsSum(d.db.videos);
    WallPurgeIsLocal(d, w.stuck, PARTS);
    RotationLeavesWall(d, PurgeWall(d, w.stuck, PARTS), w, NO_URLS);
  }

  lemma EnabledWall(d: Device, slug: string, w: World)
    requires Own(d) && HasReply(slug, w) && w.backgrounds.body.value.wall.Some?
    ensures
      var urls := w.backgrounds.body.value.wall.value;
      var r := VideoReport(d, w.stuck, slug, w.backgrounds, w.wall, w.slides);
      && VideoEndsAs(d, SyncVideos(d, w.stuck, slug, w.backgrounds, w.wall, w.slides), None, urls, w.wall, w.stuck)
      && r.WallSynced? && r.counts == VideoTally(urls, w.wall)
      && r.rotation.counts == TallyFrom(w.backgrounds.body.value.slides, 0, w.slides)
  {
    var urls := w.backgrounds.body.value.wall.value;
    var (d1, c) := SyncParts(d, w.stuck, None, urls, PARTS, w.wall, ZERO);
    EnabledStage(d, w, urls, d1, c);
    RotationLeavesWall(d, d1, w, urls);
    EnabledPhase(d, slug, w, d1);
  }

  lemma EnabledStage(d: Device, w: World, urls: Urls, d1: Device, c: Counts)
    requires Own(d) && d1 == SyncParts(d, w.stuck, None, urls, PARTS, w.wall, ZERO).0
    requires c == SyncParts(d, w.stuck, None, urls, PARTS, w.wall, ZERO).1
    ensures Own(d1) && VideoEndsAs(d, d1, None, urls, w.wall, w.stuck)
    ensures c == VideoTally(urls, w.wall)
  {
    SyncedWall(d, w.stuck, urls, w.wall);
    VideoCounts(d, w.stuck, None, urls, w.wall, ZERO);
    PlusZero(VideoTally(urls, w.wall));
  }

  lemma PlusZero(c: Counts)
    ensures Plus(ZERO, c) == c
  {
  }

  lemma EnabledPhase(d: Device, slug: string, w: World, d1: Device)
    requires HasReply(slug, w) && w.backgrounds.body.value.wall.Some?
    requires d1 == SyncParts(d, w.stuck, None, w.backgrounds.body.value.wall.value, PARTS, w.wall, ZERO).0
    ensures
      var b := w.backgrounds.body.value;
      && SyncVideos(d, w.stuck, slug, w.backgrounds, w.wall, w.slides)
         == SyncRotation(d1, w.stuck, b.slides, w.slides).0
      && VideoReport(d, w.stuck, slug, w.backgrounds, w.wall, w.slides)
      == WallSynced(SyncParts(d, w.stuck, None, b.wall.value, PARTS, w.wall, ZERO).1,
                    SyncRotation(d1, w.stuck, b.slides, w.slides).1)
  {
  }

  lemma RotationLeavesWall(d: Device, d1: Device, w: World, urls: Urls)
    requires Own(d1) && w.backgrounds.Answer? && w.backgrounds.body.Some?
    requires VideoEndsAs(d, d1, None, urls, w.wall, w.stuck)
    ensures
      var slides := w.backgrounds.body.value.slides;
      && VideoEndsAs(d, SyncRotation(d1, w.stuck, slides, w.slides).0, None, urls, w.wall, w.stuck)
      && SyncRotation(d1, w.stuck, slides, w.slides).1.counts == TallyFrom(slides, 0, w.slides)
  {
    var slides := w.backgrounds.body.value.slides;
    RotationMirrorsTheList(d1, w.stuck, slides, w.slides);
    RotationCounts(d1, w.stuck, slides, w.slides);
    forall k ensures PartAt(SyncRotation(d1, w.stuck, slides, w.slides).0, Wall(k)) == PartAt(d1, Wall(k)) {
    }
  }

  lemma AllParts(k: VideoKind)
    ensures k in PARTS
  {
    assert PARTS[0] == Webm && PARTS[1] == Mp4 && PARTS[2] == Poster;
  }

  lemma SyncedWall(d: Device, stuck: set<Path>, urls: Urls, serve: VideoKind -> BlobReply)
    requires Own(d)
    ensures
      var d' := SyncParts(d, stuck, None, urls, PARTS, serve, ZERO).0;
      Own(d') && VideoEndsAs(d, d', None, urls, serve, stuck)
  {
    PartsAreIndependent(d, stuck, None, urls, PARTS, serve, ZERO);
    SyncedPart(d, stuck, urls, serve, Webm, urls.webm);
    SyncedPart(d, stuck, urls, serve, Mp4, urls.mp4);
    SyncedPart(d, stuck, urls, serve, Poster, urls.poster);
  }

  lemma SyncedPart(d: Device, stuck: set<Path>, urls: Urls, serve: VideoKind -> BlobReply, k: VideoKind, url: string)
    requires Own(d) && url == UrlOf(urls, k)
    ensures SlotEndsAs(d, SyncParts(d, stuck, None, urls, PARTS, serve, ZERO).0, Wall(k), url, serve(k), stuck)
  {
    PartsAreIndependent(d, stuck, None, urls, PARTS, serve, ZERO);
    AllParts(k);
    PartEndsAs(d, stuck, Wall(k), url, serve(k));
  }

  lemma {:induction false} PurgeIsSync(d: Device, stuck: set<Path>, parts: seq<VideoKind>,
                                       serve: VideoKind -> BlobReply, c: Counts)
    ensures PurgeWall(d, stuck, parts) == SyncParts(d, stuck, None, NO_URLS, parts, serve, c).0
    decreases |parts|
  {
    if parts != [] {
      PurgeIsSync(PurgePart(d, stuck, Wall(parts[0])), stuck, parts[1..], serve, c);
    }
  }

  lemma PurgedWall(d: Device, stuck: set<Path>, serve: VideoKind -> BlobReply)
    requires Own(d)
    ensures VideoEndsAs(d, PurgeWall(d, stuck, PARTS), None, NO_URLS, serve, stuck)
  {
    PurgeIsSync(d, stuck, PARTS, serve, ZERO);
    SyncedWall(d, stuck, NO_URLS, serve);
  }

  lemma WallRecordsSum(videos: map<Slot, Blob>)
    ensures WallRecords(videos, PARTS)
         == One(Wall(Webm) in videos) + One(Wall(Mp4) in videos) + One(Wall(Poster) in videos)
  {
    assert PARTS[..2] == [Webm, Mp4] && [Webm, Mp4][..1] == [Webm] && [Webm][..0] == [];
    assert WallRecords(videos, [Webm]) == WallRecords(videos, []) + One(Wall(Webm) in videos);
  }
}
