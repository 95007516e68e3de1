/** The mirror agrees with a versioned remote table through edits, failed pulls and
    ticks cut short at any point. */
module MirrorAgreement {
  import opened Basics
  import opened LocalCache
  import opened SyncEngine

  // ---- The backend ----

  /** The current row of a key (a tombstone once deleted) and the version that wrote it. */
  datatype Versioned = Versioned(row: Row, at: nat)

  datatype Backend = Backend(version: nat, rows: map<Key, Versioned>)

  ghost predicate ValidBackend(b: Backend) {
    forall k | k in b.rows :: b.rows[k].row.id == RowId(k.id) && 0 < b.rows[k].at <= b.version
  }

  /** A row as it should be mirrored. */
  function Wanted(row: Row): Mirrored {
    Mirrored(if row.updatedAt != "" then row.updatedAt else row.createdAt, row)
  }

  /** What the wall should show: every row that is not deleted. */
  ghost function LiveRows(b: Backend): Mirror {
    map k | k in b.rows && b.rows[k].row.deletedAt == "" :: Wanted(b.rows[k].row)
  }

  /** Which version a cursor string stands for; the kiosk never looks inside one. */
  type Clock = string -> nat

  function Since(db: Db): string {
    if db.cursor.None? then "" else db.cursor.value
  }

  ghost predicate Current(b: Backend, name: string, row: Row) {
    row.id.NoId? || (row.id.RowId? && Key(name, row.id.n) in b.rows && b.rows[Key(name, row.id.n)].row == row)
  }

  ghost predicate AllCurrent(b: Backend, tables: seq<Table>) {
    forall i, j | 0 <= i < |tables| && 0 <= j < |tables[i].rows| :: Current(b, tables[i].name, tables[i].rows[j])
  }

  ghost predicate Named(tables: seq<Table>, k: Key) {
    exists i :: 0 <= i < |tables| && tables[i].name == k.table && Mentions(tables[i].rows, k.id)
  }

  /** The contract on a reply to `since`: every row is current, every key changed
      after `since` is named, and the new cursor stands for the present version. */
  ghost predicate Honest(b: Backend, clock: Clock, since: string, m: Manifest) {
    && AllCurrent(b, m.tables)
    && (forall k | k in b.rows && b.rows[k].at > clock(since) :: Named(m.tables, k))
    && clock(m.cursorAt) == b.version
  }

  // ---- Applying tables ----

  function MirrorAfter(m: Mirror, tables: seq<Table>): Mirror
    decreases |tables|
  {
    if tables == [] then m else MirrorAfter(AfterRows(m, tables[0].name, tables[0].rows), tables[1..])
  }

  ghost predicate Agrees(m: Mirror, b: Backend, k: Key)
    requires k in b.rows
  {
    var row := b.rows[k].row;
    if row.deletedAt != "" then k !in m else k in m && m[k] == Wanted(row)
  }

  lemma {:induction false} RowsAgree(m: Mirror, b: Backend, name: string, rows: seq<Row>, k: Key)
    requires k in b.rows
    requires forall j | 0 <= j < |rows| :: Current(b, name, rows[j])
    requires Agrees(m, b, k) || (k.table == name && Mentions(rows, k.id))
    ensures Agrees(AfterRows(m, name, rows), b, k)
  {
    if rows != [] {
      var before, last := rows[..|rows| - 1], rows[|rows| - 1];
      assert Current(b, name, last);
      if !(k.table == name && last.id == RowId(k.id)) {
        if !Agrees(m, b, k) {
          var j :| 0 <= j < |rows| && rows[j].id == RowId(k.id);
          assert before[j] == rows[j];
        }
        RowsAgree(m, b, name, before, k);
      }
    }
  }

  lemma {:induction false} RowsAddNoStranger(m: Mirror, b: Backend, name: string, rows: seq<Row>)
    requires m.Keys <= b.rows.Keys
    requires forall j | 0 <= j < |rows| :: Current(b, name, rows[j])
    ensures AfterRows(m, name, rows).Keys <= b.rows.Keys
  {
    if rows != [] {
      assert Current(b, name, rows[|rows| - 1]);
      RowsAddNoStranger(m, b, name, rows[..|rows| - 1]);
    }
  }

  lemma {:induction false} TablesAgree(m: Mirror, b: Backend, tables: seq<Table>, k: Key)
    requires k in b.rows && AllCurrent(b, tables)
    requires Agrees(m, b, k) || Named(tables, k)
    ensures Agrees(MirrorAfter(m, tables), b, k)
    decreases |tables|
  {
    if tables != [] {
      var t := tables[0];
      var m' := AfterRows(m, t.name, t.rows);
      assert forall j | 0 <= j < |t.rows| :: Current(b, tables[0].name, tables[0].rows[j]);
      assert AllCurrent(b, tables[1..]);
      if Agrees(m, b, k) || (t.name == k.table && Mentions(t.rows, k.id)) {
        RowsAgree(m, b, t.name, t.rows, k);
      } else {
        var i :| 0 <= i < |tables| && tables[i].name == k.table && Mentions(tables[i].rows, k.id);
        assert tables[1..][i - 1] == tables[i];
      }
      TablesAgree(m', b, tables[1..], k);
    }
  }

  lemma {:induction false} TablesAddNoStranger(m: Mirror, b: Backend, tables: seq<Table>)
    requires m.Keys <= b.rows.Keys && AllCurrent(b, tables)
    ensures MirrorAfter(m, tables).Keys <= b.rows.Keys
    decreases |tables|
  {
    if tables != [] {
      assert forall j | 0 <= j < |tables[0].rows| :: Current(b, tables[0].name, tables[0].rows[j]);
      RowsAddNoStranger(m, b, tables[0].name, tables[0].rows);
      TablesAddNoStranger(AfterRows(m, tables[0].name, tables[0].rows), b, tables[1..]);
    }
  }

  // ---- The link between device and backend ----

  datatype Link = Link(d: Device, b: Backend)

  /** Every key unchanged since the cursor is mirrored faithfully, and nothing else is. */
  ghost predicate InStep(l: Link, clock: Clock) {
    && ValidBackend(l.b)
    && clock(Since(l.d.db)) <= l.b.version
    && l.d.db.mirror.Keys <= l.b.rows.Keys
    && forall k | k in l.b.rows && l.b.rows[k].at <= clock(Since(l.d.db)) :: Agrees(l.d.db.mirror, l.b, k)
  }

  datatype Step =
    | Edit(key: Key, row: Row, version: nat)                      // the backend upserts or tombstones one row
    | Run(world: World)                                           // one uninterrupted tick
    | Kill(world: World, applied: nat, left: Device)              // a tick killed after `applied` tables
    | KillLate(world: World, left: Device)                        // a tick killed after its pull

  /** The tables whose rows a tick is about to apply. */
  function TablesOf(w: World): seq<Table> {
    if w.manifest.Answer? && w.manifest.code < 400 && w.manifest.body.Some? then w.manifest.body.value.tables else []
  }

  function Pulls(d: Device, w: World): PullResult {
    Pull(d, w.stuck, w.manifest).1
  }

  /** Steps the environment may take: the backend keeps its contract on whatever part
      of a reply gets applied; everything else is unconstrained. */
  ghost predicate Allowed(l: Link, s: Step, clock: Clock) {
    match s
    case Edit(key, row, version) => row.id == RowId(key.id) && version > l.b.version
    case Run(w) => KeepsContract(l, w, clock)
    case Kill(w, applied, left) =>
      && applied <= |TablesOf(w)| && AllCurrent(l.b, TablesOf(w)[..applied])
      && left.db.mirror == MirrorAfter(l.d.db.mirror, TablesOf(w)[..applied])
      && left.db.cursor == l.d.db.cursor
    case KillLate(w, left) =>
      var pulled := Pull(l.d, w.stuck, w.manifest).0;
      KeepsContract(l, w, clock) && left.db.mirror == pulled.db.mirror && left.db.cursor == pulled.db.cursor
  }

  ghost predicate KeepsContract(l: Link, w: World, clock: Clock) {
    && (forall n: nat | n <= |TablesOf(w)| && (forall i | 0 <= i < n :: AllUsable(TablesOf(w)[i].rows))
          :: AllCurrent(l.b, TablesOf(w)[..n]))
    && (Pulls(l.d, w).Pulled? ==> Honest(l.b, clock, Since(l.d.db), w.manifest.body.value))
  }

  function Next(l: Link, slug: string, s: Step): Link {
    match s
    case Edit(key, row, version) => l.(b := Backend(version, l.b.rows[key := Versioned(row, version)]))
    case Run(w) => l.(d := Tick(l.d, slug, w))
    case Kill(_, _, left) => l.(d := left)
    case KillLate(_, left) => l.(d := left)
  }

  function After(l: Link, slug: string, steps: seq<Step>): Link {
    if steps == [] then l else Next(After(l, slug, steps[..|steps| - 1]), slug, steps[|steps| - 1])
  }

  ghost predicate AllAllowed(l: Link, slug: string, steps: seq<Step>, clock: Clock) {
    forall i | 0 <= i < |steps| :: Allowed(After(l, slug, steps[..i]), steps[i], clock)
  }

  // ---- What a pull does to the mirror and the cursor ----

  lemma {:induction false} PurgingKeepsMirror(d: Device, stuck: set<Path>, rows: seq<Row>)
    ensures PurgeTombstoned(d, stuck, rows).db == d.db.(media := PurgeTombstoned(d, stuck, rows).db.media)
    decreases |rows|
  {
    if rows != [] {
      var d' := if rows[0].deletedAt != "" && rows[0].id.RowId? then PurgeMedia(d, stuck, rows[0].id.n) else d;
      PurgingKeepsMirror(d', stuck, rows[1..]);
    }
  }

  /** The tables before the first unusable id are applied whole, the rest not at all,
      and the cursor waits for the end of the loop. */
  lemma {:induction false} StepsApplyPrefix(p: Progress, stuck: set<Path>, tables: seq<Table>) returns (n: nat)
    requires !p.raised
    ensures n <= |tables| && forall i | 0 <= i < n :: AllUsable(tables[i].rows)
    ensures n < |tables| ==> !AllUsable(tables[n].rows)
    ensures TableSteps(p, stuck, tables).raised <==> n < |tables|
    ensures TableSteps(p, stuck, tables).d.db.mirror == MirrorAfter(p.d.db.mirror, tables[..n])
    ensures TableSteps(p, stuck, tables).d.db.cursor == p.d.db.cursor
    decreases |tables|
  {
    n := 0;
    if tables != [] {
      var p' := TableStep(p, stuck, tables[0]);
      if !p'.raised {
        PurgingKeepsMirror(WithRows(p.d, tables[0]), stuck, tables[0].rows);
        var n' := StepsApplyPrefix(p', stuck, tables[1..]);
        n := n' + 1;
        assert tables[..n][0] == tables[0] && tables[..n][1..] == tables[1..][..n'];
        assert forall i | 0 < i < n :: tables[i] == tables[1..][i - 1];
      } else {
        assert TableSteps(p, stuck, tables) == TableSteps(p', stuck, tables[1..]) == p';
      }
    }
  }

  lemma {:induction false} FetchKeepsMirror(d: Device, stuck: set<Path>, ids: seq<Id>, limit: int,
                                            serve: Id -> BlobReply, c: Counts)
    ensures
      var d' := FetchFrom(d, stuck, ids, limit, serve, c).0;
      d'.db == d.db.(media := d'.db.media)
    decreases |ids|
  {
    if ids != [] && c.fetched < limit {
      if Cached(d, ids[0]) {
        FetchKeepsMirror(d, stuck, ids[1..], limit, serve, c.(skipped := c.skipped + 1));
      } else {
        var (d', ok) := DownloadMedia(d, stuck, ids[0], serve(ids[0]));
        FetchKeepsMirror(d', stuck, ids[1..], limit, serve,
                         if ok then c.(fetched := c.fetched + 1) else c.(errored := c.errored + 1));
      }
    }
  }

  lemma {:induction false} PartsKeepMirror(d: Device, stuck: set<Path>, owner: Option<Id>, urls: Urls,
                                           parts: seq<VideoKind>, serve: VideoKind -> BlobReply, c: Counts)
    ensures
      var d' := SyncParts(d, stuck, owner, urls, parts, serve, c).0;
      d'.db == d.db.(videos := d'.db.videos)
    decreases |parts|
  {
    if parts != [] {
      var slot := SlotOf(owner, parts[0]);
      if UrlOf(urls, parts[0]) == "" {
        PartsKeepMirror(PurgePart(d, stuck, slot), stuck, owner, urls, parts[1..], serve, c);
      } else {
        var (d', o) := DownloadPart(d, stuck, slot, serve(parts[0]));
        PartsKeepMirror(d', stuck, owner, urls, parts[1..], serve, Count(c, o));
      }
    }
  }

  lemma {:induction false} SlidesKeepMirror(d: Device, stuck: set<Path>, slides: seq<Slide>, k: nat,
                                            serve: SlideServe, c: Counts)
    requires k <= |slides|
    ensures
      var d' := SyncSlides(d, stuck, slides, k, serve, c).0;
      d'.db == d.db.(videos := d'.db.videos)
    decreases |slides| - k
  {
    if k < |slides| {
      if PerId(slides[k]) {
        PartsKeepMirror(d, stuck, Some(slides[k].id.n), slides[k].urls, PARTS, p => serve(k, p), c);
        var (d', c') := SyncParts(d, stuck, Some(slides[k].id.n), slides[k].urls, PARTS, p => serve(k, p), c);
        SlidesKeepMirror(d', stuck, slides, k + 1, serve, c');
      } else {
        SlidesKeepMirror(d, stuck, slides, k + 1, serve, c);
      }
    }
  }

  lemma {:induction false} WallKeepsMirror(d: Device, stuck: set<Path>, parts: seq<VideoKind>)
    ensures PurgeWall(d, stuck, parts).db == d.db.(videos := PurgeWall(d, stuck, parts).db.videos)
    decreases |parts|
  {
    if parts != [] {
      WallKeepsMirror(PurgePart(d, stuck, Wall(parts[0])), stuck, parts[1..]);
    }
  }

  lemma VideosKeepMirror(d: Device, slug: string, w: World)
    ensures
      var d' := SyncVideos(d, w.stuck, slug, w.backgrounds, w.wall, w.slides);
      d'.db == d.db.(videos := d'.db.videos)
  {
    if !(slug == "" || w.backgrounds.Unreachable? || w.backgrounds.code >= 400 || w.backgrounds.body.None?) {
      var b := w.backgrounds.body.value;
      var d' := if b.wall.None? then PurgeWall(d, w.stuck, PARTS)
                else SyncParts(d, w.stuck, None, b.wall.value, PARTS, w.wall, ZERO).0;
      WallKeepsMirror(d, w.stuck, PARTS);
      if b.wall.Some? {
        PartsKeepMirror(d, w.stuck, None, b.wall.value, PARTS, w.wall, ZERO);
      }
      SlidesKeepMirror(d', w.stuck, b.slides, 0, w.slides, ZERO);
    }
  }

  lemma {:induction false} StepsKeepQueue(p: Progress, stuck: set<Path>, tables: seq<Table>)
    ensures TableSteps(p, stuck, tables).d.db.events == p.d.db.events
    decreases |tables|
  {
    if tables != [] && !p.raised {
      PurgingKeepsMirror(WithRows(p.d, tables[0]), stuck, tables[0].rows);
      StepsKeepQueue(TableStep(p, stuck, tables[0]), stuck, tables[1..]);
    }
  }

  lemma PullKeepsQueue(d: Device, w: World)
    ensures Pull(d, w.stuck, w.manifest).0.db.events == d.db.events
  {
    StepsKeepQueue(Progress(d, 0, 0, false), w.stuck, TablesOf(w));
  }

  lemma PassKeepsQueue(d: Device, w: World)
    ensures FetchPass(d, w.stuck, FETCH_LIMIT, w.media).0.db.events == d.db.events
  {
    FetchKeepsMirror(d, w.stuck, MediaIds(d.db.mirror), FETCH_LIMIT, w.media, ZERO);
  }

  /** Every tick drains one batch of the queue, whether the pull succeeded or was refused;
      only an exception out of the pull skips it. */
  lemma TickFlushes(d: Device, slug: string, w: World)
    ensures Tick(d, slug, w).db.events
         == if Pulls(d, w).Raised? then d.db.events else AfterFlush(d.db.events, 50, w.post)
  {
    var pulled := Pull(d, w.stuck, w.manifest).0;
    PullKeepsQueue(d, w);
    PassKeepsQueue(pulled, w);
    VideosKeepMirror(FetchPass(pulled, w.stuck, FETCH_LIMIT, w.media).0, slug, w);
  }

  /** Only the pull of a tick touches the mirror and the cursor. */
  lemma TickPulls(d: Device, slug: string, w: World)
    ensures
      var (p, d') := (Pull(d, w.stuck, w.manifest).0, Tick(d, slug, w));
      d'.db.mirror == p.db.mirror && d'.db.cursor == p.db.cursor
  {
    var pulled := Pull(d, w.stuck, w.manifest).0;
    var ids := MediaIds(pulled.db.mirror);
    FetchKeepsMirror(pulled, w.stuck, ids, FETCH_LIMIT, w.media, ZERO);
    VideosKeepMirror(FetchPass(pulled, w.stuck, FETCH_LIMIT, w.media).0, slug, w);
  }

  /** What a tick reports: nothing if the pull raised; otherwise the pull's result, the fetch
      pass and the videos only after a pull that was applied, and the batch taken from the queue
      as it was before the tick. */
  lemma TickReports(d: Device, slug: string, w: World)
    ensures
      var ((pulled, result), r) := (Pull(d, w.stuck, w.manifest), TickReport(d, slug, w));
      if result.Raised? then r.None?
      else
        && r.Some? && r.value.manifest == result
        && (r.value.fetch.Some? <==> result.Pulled?) && (r.value.video.Some? <==> result.Pulled?)
        && (result.Pulled? ==> r.value.fetch == Some(FetchPass(pulled, w.stuck, 50, w.media).1))
        && r.value.push == PushReport(d.db.events, 50, w.post)
  {
    var pulled := Pull(d, w.stuck, w.manifest).0;
    PullKeepsQueue(d, w);
    PassKeepsQueue(pulled, w);
    VideosKeepMirror(FetchPass(pulled, w.stuck, FETCH_LIMIT, w.media).0, slug, w);
  }

  function TotalUpserts(tables: seq<Table>): nat {
    if tables == [] then 0 else Upserts(tables[0].rows) + TotalUpserts(tables[1..])
  }

  function TotalRemovals(m: Mirror, tables: seq<Table>): nat
    decreases |tables|
  {
    if tables == [] then 0
    else
      var t := tables[0];
      Removals(m, t.name, t.rows) + TotalRemovals(AfterRows(m, t.name, t.rows), tables[1..])
  }

  lemma {:induction false} StepsAddUp(p: Progress, stuck: set<Path>, tables: seq<Table>)
    requires !TableSteps(p, stuck, tables).raised
    ensures TableSteps(p, stuck, tables).upserted == p.upserted + TotalUpserts(tables)
    ensures TableSteps(p, stuck, tables).deleted == p.deleted + TotalRemovals(p.d.db.mirror, tables)
    decreases |tables|
  {
    if tables != [] {
      var p' := TableStep(p, stuck, tables[0]);
      if !p'.raised {
        PurgingKeepsMirror(WithRows(p.d, tables[0]), stuck, tables[0].rows);
      }
      StepsAddUp(p', stuck, tables[1..]);
    }
  }

  /** Every answer to a pull: which are refused and why, that nothing changes then, and that an
      applied one advances the cursor if it brings one and reports the totals of its tables. */
  lemma PullAnswers(d: Device, stuck: set<Path>, reply: ApiReply<Manifest>)
    ensures
      var (d', r) := Pull(d, stuck, reply);
      match reply
      case Unreachable => d' == d && r == Refused(Network)
      case Answer(code, body) =>
        if code == 401 then d' == d && r == Refused(Unauthorized)
        else if code >= 400 then d' == d && r == Refused(Http(code))
        else if body.None? then d' == d && r == Refused(NonJson)
        else if exists i :: 0 <= i < |body.value.tables| && !AllUsable(body.value.tables[i].rows) then
          r == Raised && d'.db.cursor == d.db.cursor
        else
          var m := body.value;
          && r == Pulled(m.cursorAt, TotalUpserts(m.tables), TotalRemovals(d.db.mirror, m.tables))
          && d'.db.cursor == if m.cursorAt == "" then d.db.cursor else Some(m.cursorAt)
  {
    if reply.Answer? && reply.body.Some? {
      var tables := reply.body.value.tables;
      var n := StepsApplyPrefix(Progress(d, 0, 0, false), stuck, tables);
      if TableSteps(Progress(d, 0, 0, false), stuck, tables).raised {
        assert !AllUsable(tables[n].rows);
      } else {
        StepsAddUp(Progress(d, 0, 0, false), stuck, tables);
      }
    }
  }

  // ---- Main results ----

  lemma ApplyingStaysInStep(l: Link, tables: seq<Table>, clock: Clock)
    requires InStep(l, clock) && AllCurrent(l.b, tables)
    ensures InStep(l.(d := l.d.(db := l.d.db.(mirror := MirrorAfter(l.d.db.mirror, tables)))), clock)
  {
    TablesAddNoStranger(l.d.db.mirror, l.b, tables);
    forall k | k in l.b.rows && l.b.rows[k].at <= clock(Since(l.d.db))
      ensures Agrees(MirrorAfter(l.d.db.mirror, tables), l.b, k)
    {
      TablesAgree(l.d.db.mirror, l.b, tables, k);
    }
  }

  /** An honest manifest, fully applied, leaves exactly the live rows. */
  lemma FullPullIsExact(l: Link, m: Manifest, clock: Clock)
    requires InStep(l, clock) && Honest(l.b, clock, Since(l.d.db), m)
    ensures MirrorAfter(l.d.db.mirror, m.tables) == LiveRows(l.b)
    ensures forall k | k in l.b.rows :: Agrees(MirrorAfter(l.d.db.mirror, m.tables), l.b, k)
  {
    var m' := MirrorAfter(l.d.db.mirror, m.tables);
    TablesAddNoStranger(l.d.db.mirror, l.b, m.tables);
    forall k | k in l.b.rows ensures Agrees(m', l.b, k) {
      TablesAgree(l.d.db.mirror, l.b, m.tables, k);
    }
    assert m'.Keys == LiveRows(l.b).Keys;
  }

  lemma EditStaysInStep(l: Link, slug: string, s: Step, clock: Clock)
    requires s.Edit? && InStep(l, clock) && Allowed(l, s, clock)
    ensures InStep(Next(l, slug, s), clock)
  {
    var b' := Next(l, slug, s).b;
    forall k | k in b'.rows && b'.rows[k].at <= clock(Since(l.d.db)) ensures Agrees(l.d.db.mirror, b', k) {
      assert k != s.key && Agrees(l.d.db.mirror, l.b, k);
    }
  }

  lemma TickStaysInStep(l: Link, w: World, clock: Clock)
    requires clock("") == 0 && InStep(l, clock) && KeepsContract(l, w, clock)
    ensures InStep(l.(d := Pull(l.d, w.stuck, w.manifest).0), clock)
    ensures Pulls(l.d, w).Pulled? ==> Pull(l.d, w.stuck, w.manifest).0.db.mirror == LiveRows(l.b)
  {
    var result := Pulls(l.d, w);
    if !result.Refused? {
      var tables := TablesOf(w);
      var n := StepsApplyPrefix(Progress(l.d, 0, 0, false), w.stuck, tables);
      if result.Raised? {
        assert AllCurrent(l.b, TablesOf(w)[..n]);
        ApplyingStaysInStep(l, tables[..n], clock);
      } else {
        assert tables[..n] == tables;
        FullPullIsExact(l, w.manifest.body.value, clock);
      }
    }
  }

  lemma StepStaysInStep(l: Link, slug: string, s: Step, clock: Clock)
    requires clock("") == 0 && InStep(l, clock) && Allowed(l, s, clock)
    ensures InStep(Next(l, slug, s), clock)
    ensures s.Run? && Pulls(l.d, s.world).Pulled? ==> Next(l, slug, s).d.db.mirror == LiveRows(l.b)
  {
    match s
    case Edit(_, _, _) => EditStaysInStep(l, slug, s, clock);
    case Kill(w, applied, left) => ApplyingStaysInStep(l, TablesOf(w)[..applied], clock);
    case KillLate(w, _) => TickStaysInStep(l, w, clock);
    case Run(w) =>
      TickPulls(l.d, slug, w);
      TickStaysInStep(l, w, clock);
  }

  lemma {:induction false} RunStaysInStep(l: Link, slug: string, steps: seq<Step>, clock: Clock)
    requires clock("") == 0 && InStep(l, clock) && AllAllowed(l, slug, steps, clock)
    ensures InStep(After(l, slug, steps), clock)
  {
    if steps != [] {
      var before := steps[..|steps| - 1];
      forall i | 0 <= i < |before| ensures Allowed(After(l, slug, before[..i]), before[i], clock) {
        assert before[..i] == steps[..i];
      }
      RunStaysInStep(l, slug, before, clock);
      StepStaysInStep(After(l, slug, before), slug, steps[|steps| - 1], clock);
    }
  }

  /** Start from an empty cache. Whatever edits, failed pulls, rolled-back tables and
      kills came before, a tick whose pull succeeds leaves the mirror equal to the
      backend's live rows, neither stale nor missing nor extra. */
  lemma {:induction false} MirrorIsExactAfterEveryPull(files: Files, b: Backend, slug: string, steps: seq<Step>,
                                                       clock: Clock)
    requires clock("") == 0 && ValidBackend(b)
    requires AllAllowed(Link(Device(EMPTY_DB, files), b), slug, steps, clock)
    requires steps != [] && steps[|steps| - 1].Run?
    requires Pulls(After(Link(Device(EMPTY_DB, files), b), slug, steps[..|steps| - 1]).d,
                   steps[|steps| - 1].world).Pulled?
    ensures
      var end := After(Link(Device(EMPTY_DB, files), b), slug, steps);
      end.d.db.mirror == LiveRows(end.b)
    ensures
      var end := After(Link(Device(EMPTY_DB, files), b), slug, steps);
      forall k ::
        && (k in end.d.db.mirror <==> k in end.b.rows && end.b.rows[k].row.deletedAt == "")
        && (k in end.d.db.mirror ==>
              var (m, row) := (end.d.db.mirror[k], end.b.rows[k].row);
              m.payload == row && m.cursorAt == if row.updatedAt != "" then row.updatedAt else row.createdAt)
  {
    var l := Link(Device(EMPTY_DB, files), b);
    var before := steps[..|steps| - 1];
    forall i | 0 <= i < |before| ensures Allowed(After(l, slug, before[..i]), before[i], clock) {
      assert before[..i] == steps[..i];
    }
    RunStaysInStep(l, slug, before, clock);
    assert steps[..|steps| - 1] == before;
    StepStaysInStep(After(l, slug, before), slug, steps[|steps| - 1], clock);
  }
}
