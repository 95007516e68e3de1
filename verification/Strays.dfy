/** Media records that outlive their row: where a killed tick leaves one, exactly which later
    tick clears it, and why nothing else ever changes a cached blob. */
module Strays {
  import opened Basics
  import opened LocalCache
  import opened SyncEngine
  import opened BackgroundVideos
  import opened MediaCache
  import opened MirrorAgreement
  import opened KilledVideos
  import opened KilledTicks
  import FetchBudget

  // ---- When a batch counts a removal ----

  /** A row before j puts the id into the mirror. */
  ghost predicate UpsertedBefore(rows: seq<Row>, j: int, id: Id) {
    exists i :: 0 <= i < j && i < |rows| && rows[i].id == RowId(id) && rows[i].deletedAt == ""
  }

  /** Row j is a tombstone for a row that was mirrored before the batch or put there by it. */
  ghost predicate RemovesAt(m: Mirror, table: string, rows: seq<Row>, j: int) {
    && 0 <= j < |rows| && rows[j].id.RowId? && rows[j].deletedAt != ""
    && (Key(table, rows[j].id.n) in m || UpsertedBefore(rows, j, rows[j].id.n))
  }

  ghost predicate Removes(m: Mirror, table: string, rows: seq<Row>) {
    exists j :: RemovesAt(m, table, rows, j)
  }

  lemma {:induction false} LastMention(rows: seq<Row>, id: Id) returns (j: nat)
    requires Mentions(rows, id)
    ensures Decides(rows, j, id)
  {
    j := |rows| - 1;
    if rows[j].id != RowId(id) {
      var k :| 0 <= k < |rows| && rows[k].id == RowId(id);
      assert rows[..j][k] == rows[k];
      j := LastMention(rows[..|rows| - 1], id);
      assert forall i | j < i < |rows| - 1 :: rows[i] == rows[..|rows| - 1][i];
    }
  }

  /** A key is mirrored after a batch that removes nothing exactly when it was before or the
      batch put it there; in any batch only those keys can be. */
  lemma PresentAfter(m: Mirror, table: string, rows: seq<Row>, id: Id)
    ensures
      var before := Key(table, id) in m || UpsertedBefore(rows, |rows|, id);
      && (Key(table, id) in AfterRows(m, table, rows) ==> before)
      && (before && !Removes(m, table, rows) ==> Key(table, id) in AfterRows(m, table, rows))
  {
    if Mentions(rows, id) {
      var j := LastMention(rows, id);
      LastRowDecides(m, table, rows, j, id);
      if rows[j].deletedAt != "" && (Key(table, id) in m || UpsertedBefore(rows, |rows|, id)) {
        assert Key(table, id) in m || UpsertedBefore(rows, j, id);
        assert RemovesAt(m, table, rows, j);
      }
    } else {
      AfterRowsElsewhere(m, table, rows, Key(table, id));
    }
  }

  lemma RemovesStep(m: Mirror, table: string, rows: seq<Row>)
    requires rows != []
    ensures Removes(m, table, rows) <==>
            Removes(m, table, rows[..|rows| - 1]) || RemovesAt(m, table, rows, |rows| - 1)
  {
    var before := rows[..|rows| - 1];
    forall j | 0 <= j < |before| ensures RemovesAt(m, table, before, j) <==> RemovesAt(m, table, rows, j) {
      assert before[j] == rows[j] && forall i | 0 <= i < j :: before[i] == rows[i];
    }
    if j :| RemovesAt(m, table, rows, j) && j < |before| {
      assert RemovesAt(m, table, before, j);
    }
    if j :| RemovesAt(m, table, before, j) {
      assert RemovesAt(m, table, rows, j);
    }
  }

  /** A batch counts a removal exactly when one of its tombstones names a row that was
      mirrored before, or that an earlier row of the batch put there. */
  lemma {:induction false} RemovalsExactly(m: Mirror, table: string, rows: seq<Row>)
    ensures Removals(m, table, rows) > 0 <==> Removes(m, table, rows)
  {
    if rows != [] {
      var before, last := rows[..|rows| - 1], rows[|rows| - 1];
      RemovalsExactly(m, table, before);
      RemovesStep(m, table, rows);
      if last.id.RowId? {
        PresentAfter(m, table, before, last.id.n);
        assert UpsertedBefore(rows, |before|, last.id.n) <==> UpsertedBefore(before, |before|, last.id.n) by {
          assert forall i | 0 <= i < |before| :: before[i] == rows[i];
        }
      }
    }
  }

  // ---- Where a kill leaves a stray ----

  /** The last row for i is a tombstone, and the first k rows do not tombstone it. */
  ghost predicate Stranded(rows: seq<Row>, k: nat, i: Id)
    requires k <= |rows|
  {
    !Tombstoned(rows[..k], i) && exists j :: Decides(rows, j, i) && rows[j].deletedAt != ""
  }

  /** A tick killed after the media table's transaction and k steps of its purge leaves a
      record without a row exactly when the last row for some recorded id is a tombstone
      that the purge has not come to. */
  lemma KilledDuringPurge(d: Device, stuck: set<Path>, t: Table, k: nat)
    requires Sound(d) && t.name == MEDIA_TABLE && k <= |t.rows|
    ensures
      var left := PurgeTombstoned(WithRows(d, t), stuck, t.rows[..k]);
      !Known(left) <==> exists i :: i in d.db.media && Stranded(t.rows, k, i)
  {
    var left := PurgeTombstoned(WithRows(d, t), stuck, t.rows[..k]);
    forall i: Id
      ensures i in left.db.media && Key(MEDIA_TABLE, i) !in left.db.mirror <==>
              i in d.db.media && Stranded(t.rows, k, i)
    {
      PurgesTheTombstoned(WithRows(d, t), stuck, t.rows[..k], i);
      RowGone(d, t, i);
    }
  }

  lemma RowGone(d: Device, t: Table, i: Id)
    requires Known(d) && t.name == MEDIA_TABLE
    ensures i in d.db.media ==>
              (Key(MEDIA_TABLE, i) !in AfterRows(d.db.mirror, t.name, t.rows) <==>
               exists j :: Decides(t.rows, j, i) && t.rows[j].deletedAt != "")
  {
    if Mentions(t.rows, i) {
      var j := LastMention(t.rows, i);
      LastRowDecides(d.db.mirror, t.name, t.rows, j, i);
      assert forall k | Decides(t.rows, k, i) :: k == j;
    } else {
      AfterRowsElsewhere(d.db.mirror, t.name, t.rows, Key(MEDIA_TABLE, i));
    }
  }

  /** Where the kill came: table n was committed as the media table, and its purge had done k
      steps, or k and the record of one more. */
  ghost predicate StrandedBy(d: Device, slug: string, w: World, at: Point, i: Id)
    requires Possible(d, slug, w, at)
  {
    && at.Purging? && TablesOf(w)[at.n].name == MEDIA_TABLE
    && i in Applied(d, w, at.n).db.media
    && Stranded(TablesOf(w)[at.n].rows, if at.ahead then at.k + 1 else at.k, i)
  }

  lemma TombstonedNext(rows: seq<Row>, k: nat, i: Id)
    requires k < |rows| && rows[k].deletedAt != "" && rows[k].id.RowId?
    ensures Tombstoned(rows[..k + 1], i) <==> Tombstoned(rows[..k], i) || rows[k].id.n == i
  {
    assert forall j | 0 <= j < k :: rows[..k][j] == rows[..k + 1][j];
    assert rows[..k + 1][k] == rows[k];
    if j :| 0 <= j < k && rows[j].deletedAt != "" && rows[j].id == RowId(i) {
      assert rows[..k][j].deletedAt != "" && rows[..k + 1][j].deletedAt != "";
    }
  }

  lemma PurgingStrandsExactly(d: Device, slug: string, w: World, at: Point)
    requires Sound(d) && Possible(d, slug, w, at) && at.Purging?
    ensures !Known(Killed(d, slug, w, at)) <==> exists i :: StrandedBy(d, slug, w, at, i)
  {
    var (t, d1) := (TablesOf(w)[at.n], Applied(d, w, at.n));
    StepsStayUsable(Progress(d, 0, 0, false), w.stuck, TablesOf(w)[..at.n]);
    if t.name == MEDIA_TABLE {
      forall i: Id
        ensures i in Killed(d, slug, w, at).db.media && Key(MEDIA_TABLE, i) !in Killed(d, slug, w, at).db.mirror
           <==> StrandedBy(d, slug, w, at, i)
      {
        PurgesTheTombstoned(WithRows(d1, t), w.stuck, t.rows[..at.k], i);
        RowGone(d1, t, i);
        if at.ahead {
          TombstonedNext(t.rows, at.k, i);
        }
      }
    } else {
      assert t.rows[..0] == [];
      OtherTablesKeepKnown(d1, t);
    }
  }

  lemma OtherTablesKeepKnown(d: Device, t: Table)
    requires Known(d) && t.name != MEDIA_TABLE
    ensures Known(WithRows(d, t))
  {
    forall i | i in d.db.media ensures Key(MEDIA_TABLE, i) in AfterRows(d.db.mirror, t.name, t.rows) {
      AfterRowsElsewhere(d.db.mirror, t.name, t.rows, Key(MEDIA_TABLE, i));
    }
  }

  lemma ElsewhereStaysKnown(d: Device, slug: string, w: World, at: Point)
    requires Sound(d) && Possible(d, slug, w, at) && !at.Purging?
    ensures Known(Killed(d, slug, w, at))
  {
    PullStaysUsable(d, w.stuck, w.manifest);
    match at
    case Pulling(n) => StepsStayUsable(Progress(d, 0, 0, false), w.stuck, TablesOf(w)[..n]);
    case Fetching(k, _) =>
      MediaIdsListMirror(AfterPull(d, w).db.mirror);
      FetchStaysUsable(AfterPull(d, w), w.stuck, MediaIds(AfterPull(d, w).db.mirror)[..k], FETCH_LIMIT, w.media, ZERO);
    case Syncing(videos) =>
      PassStaysUsable(AfterPull(d, w), w.stuck, FETCH_LIMIT, w.media);
      KilledVideosKeepMirror(AfterPass(d, w), slug, w, videos);
  }

  /** Over all points of a tick: a kill leaves a record without a row exactly when it comes after
      the media table's transaction and before its purge has come to a recorded id whose last
      row is a tombstone. */
  lemma KillStrandsExactly(d: Device, slug: string, w: World, at: Point)
    requires Sound(d) && Possible(d, slug, w, at)
    ensures !Known(Killed(d, slug, w, at)) <==> exists i :: StrandedBy(d, slug, w, at, i)
  {
    if at.Purging? {
      PurgingStrandsExactly(d, slug, w, at);
    } else {
      ElsewhereStaysKnown(d, slug, w, at);
    }
  }

  // ---- What clears a stray ----

  /** A media batch that tombstones i drops its record, stray or not, exactly when one of its
      tombstones, for whatever id, still finds a row. */
  lemma StrayIsClearedExactly(d: Device, stuck: set<Path>, t: Table, i: Id)
    requires OwnMedia(d) && i in d.db.media && t.name == MEDIA_TABLE && Tombstoned(t.rows, i)
    ensures i !in AfterTable(d, stuck, t).db.media <==> Removes(d.db.mirror, t.name, t.rows)
  {
    RemovalsExactly(d.db.mirror, t.name, t.rows);
    PurgesTheTombstoned(WithRows(d, t), stuck, t.rows, i);
  }

  ghost predicate DistinctRows(rows: seq<Row>) {
    forall i, j | 0 <= i < j < |rows| && rows[i].id.RowId? :: rows[i].id != rows[j].id
  }

  /** With one row per id: exactly when some tombstone names a row that is still mirrored. */
  lemma StrayIsClearedByALiveTombstone(d: Device, stuck: set<Path>, t: Table, i: Id)
    requires OwnMedia(d) && i in d.db.media && t.name == MEDIA_TABLE && Tombstoned(t.rows, i) && DistinctRows(t.rows)
    ensures i !in AfterTable(d, stuck, t).db.media <==>
            exists j :: 0 <= j < |t.rows| && t.rows[j].id.RowId? && t.rows[j].deletedAt != ""
                        && Key(MEDIA_TABLE, t.rows[j].id.n) in d.db.mirror
  {
    StrayIsClearedExactly(d, stuck, t, i);
    if j :| RemovesAt(d.db.mirror, t.name, t.rows, j) {
      assert !UpsertedBefore(t.rows, j, t.rows[j].id.n);
    }
    if j :| 0 <= j < |t.rows| && t.rows[j].id.RowId? && t.rows[j].deletedAt != ""
            && Key(MEDIA_TABLE, t.rows[j].id.n) in d.db.mirror {
      assert RemovesAt(d.db.mirror, t.name, t.rows, j);
    }
  }

  /** The very same batch again finds nothing left to delete: killed before its purge, its
      redelivery purges nothing, and the stray record and its file stay. */
  lemma RedeliveryNeverPurges(d: Device, stuck: set<Path>, t: Table)
    requires DistinctRows(t.rows)
    ensures
      var killed := WithRows(d, t);
      AfterTable(killed, stuck, t).db.media == d.db.media && AfterTable(killed, stuck, t).files == d.files
  {
    var m := AfterRows(d.db.mirror, t.name, t.rows);
    forall j ensures !RemovesAt(m, t.name, t.rows, j) {
      if 0 <= j < |t.rows| && t.rows[j].id.RowId? && t.rows[j].deletedAt != "" {
        assert Decides(t.rows, j, t.rows[j].id.n);
        LastRowDecides(d.db.mirror, t.name, t.rows, j, t.rows[j].id.n);
      }
    }
    RemovalsExactly(m, t.name, t.rows);
  }

  // ---- Cached bytes are final ----

  /** Applying the tables to this mirror drops the record of i: some media batch before the
      first unusable id tombstones it and removes something. */
  ghost predicate Drops(m: Mirror, tables: seq<Table>, i: Id)
    decreases |tables|
  {
    tables != [] && AllUsable(tables[0].rows)
    && ((tables[0].name == MEDIA_TABLE && Tombstoned(tables[0].rows, i) && Removes(m, MEDIA_TABLE, tables[0].rows))
        || Drops(AfterRows(m, tables[0].name, tables[0].rows), tables[1..], i))
  }

  ghost predicate TickDrops(d: Device, w: World, i: Id) {
    w.manifest.Answer? && w.manifest.code < 400 && w.manifest.body.Some?
    && Drops(d.db.mirror, w.manifest.body.value.tables, i)
  }

  lemma TableDropsExactly(d: Device, stuck: set<Path>, t: Table, i: Id)
    requires OwnMedia(d)
    ensures
      var d' := AfterTable(d, stuck, t);
      && OwnMedia(d') && d'.db.videos == d.db.videos && d'.db.mirror == AfterRows(d.db.mirror, t.name, t.rows)
      && (MediaFile(i) in d'.files ==> MediaFile(i) in d.files)
      && if t.name == MEDIA_TABLE && Tombstoned(t.rows, i) && Removes(d.db.mirror, MEDIA_TABLE, t.rows)
         then Forgotten(d, d', stuck, i) else SameBlob(d, d', i)
  {
    RemovalsExactly(d.db.mirror, t.name, t.rows);
    PurgesTheTombstoned(WithRows(d, t), stuck, t.rows, i);
  }

  lemma {:induction false} NoRecordNoDrop(p: Progress, stuck: set<Path>, tables: seq<Table>, i: Id)
    requires OwnMedia(p.d) && i !in p.d.db.media
    ensures
      var d' := TableSteps(p, stuck, tables).d;
      OwnMedia(d') && i !in d'.db.media && (MediaFile(i) in d'.files ==> MediaFile(i) in p.d.files)
    decreases |tables|
  {
    if tables != [] && !p.raised {
      TableDropsExactly(p.d, stuck, tables[0], i);
      NoRecordNoDrop(TableStep(p, stuck, tables[0]), stuck, tables[1..], i);
    }
  }

  lemma {:induction false} StepsDropExactly(p: Progress, stuck: set<Path>, tables: seq<Table>, i: Id)
    requires OwnMedia(p.d) && !p.raised
    ensures
      var d' := TableSteps(p, stuck, tables).d;
      if Drops(p.d.db.mirror, tables, i) then Forgotten(p.d, d', stuck, i)
      else OwnMedia(d') && SameBlob(p.d, d', i) && d'.db.videos == p.d.db.videos
    decreases |tables|
  {
    if tables != [] {
      var p' := TableStep(p, stuck, tables[0]);
      if p'.raised {
        assert TableSteps(p, stuck, tables) == TableSteps(p', stuck, tables[1..]) == p';
      } else {
        TableDropsExactly(p.d, stuck, tables[0], i);
        StepsDropExactly(p', stuck, tables[1..], i);
        if i !in p'.d.db.media {
          NoRecordNoDrop(p', stuck, tables[1..], i);
        }
      }
    }
  }

  /** The pull of a tick drops record and file of i exactly when `TickDrops` says so, and leaves
      record and file alone otherwise. */
  lemma PullDropsExactly(d: Device, w: World, i: Id)
    requires OwnMedia(d)
    ensures
      var d' := Pull(d, w.stuck, w.manifest).0;
      if TickDrops(d, w, i) then Forgotten(d, d', w.stuck, i)
      else OwnMedia(d') && SameBlob(d, d', i) && d'.db.videos == d.db.videos
  {
    if w.manifest.Answer? && w.manifest.body.Some? {
      StepsDropExactly(Progress(d, 0, 0, false), w.stuck, w.manifest.body.value.tables, i);
    }
  }

  /** Once cached, an id keeps its record and its bytes through every uninterrupted tick whose
      pull does not drop it: an updated row never causes a re-fetch. If the pull drops it,
      the record is gone before anything is fetched. */
  lemma CachedBytesAreFinal(d: Device, slug: string, w: World, i: Id)
    requires OwnMedia(d) && Own(d) && Cached(d, i)
    ensures TickDrops(d, w, i) ==> i !in Pull(d, w.stuck, w.manifest).0.db.media
    ensures !TickDrops(d, w, i) ==>
              OwnMedia(Tick(d, slug, w)) && Own(Tick(d, slug, w))
              && SameBlob(d, Tick(d, slug, w), i) && Cached(Tick(d, slug, w), i)
  {
    PullDropsExactly(d, w, i);
    var (pulled, result) := Pull(d, w.stuck, w.manifest);
    if !TickDrops(d, w, i) && result.Pulled? {
      FetchBudget.FetchSpares(pulled, w.stuck, MediaIds(pulled.db.mirror), FETCH_LIMIT, w.media, ZERO, i);
      VideosStayInTheirLane(FetchPass(pulled, w.stuck, FETCH_LIMIT, w.media).0, slug, w);
    }
  }

  /** The same over any number of ticks: until a tick drops it, a cached blob, stray or not,
      stays exactly as it is. */
  lemma {:induction false} CachedBytesStayFinal(d: Device, slug: string, ws: seq<World>, i: Id)
    requires OwnMedia(d) && Own(d) && Cached(d, i)
    requires forall k | 0 <= k < |ws| :: !TickDrops(Ticks(d, slug, ws[..k]), ws[k], i)
    ensures OwnMedia(Ticks(d, slug, ws)) && Own(Ticks(d, slug, ws))
    ensures SameBlob(d, Ticks(d, slug, ws), i) && Cached(Ticks(d, slug, ws), i)
  {
    if ws != [] {
      var before := ws[..|ws| - 1];
      forall k | 0 <= k < |before| ensures !TickDrops(Ticks(d, slug, before[..k]), before[k], i) {
        assert before[..k] == ws[..k];
      }
      CachedBytesStayFinal(d, slug, before, i);
      CachedBytesAreFinal(Ticks(d, slug, before), slug, ws[|ws| - 1], i);
    }
  }
}
