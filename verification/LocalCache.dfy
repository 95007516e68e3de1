/** The on-device SQLite cache: each table is a map keyed by its primary key, and
    each `with` block is one transaction, committed or rolled back as a whole. */
module LocalCache {
  import opened Basics

  /** What a JSON row's `id` turns out to be: absent or null, an integer SQLite can
      store, or anything on which `int(...)` or the insert raises. */
  datatype RowId = NoId | RowId(n: Id) | BadId

  /** One manifest row. A text field that is absent, null or empty is "", since the
      code only tests truth values; `rest` is every column it never looks at. */
  datatype Row = Row(id: RowId, deletedAt: string, updatedAt: string, createdAt: string,
                     published: Option<bool>, caption: string, altText: string, takenAt: string,
                     rest: string)

  datatype Key = Key(table: string, id: Id)

  datatype Mirrored = Mirrored(cursorAt: string, payload: Row)

  type Mirror = map<Key, Mirrored>

  datatype VideoKind = Webm | Mp4 | Poster

  /** Primary keys of `video_blobs` (the designated wall video) and of
      `rotation_video_blobs`; one map holds both tables, whose keys never meet. */
  datatype Slot = Wall(kind: VideoKind) | Rotation(id: Id, kind: VideoKind)

  /** media/<id>.bin, or the file of one video part under the video directory. */
  datatype Path = MediaFile(id: Id) | VideoFile(slot: Slot)

  datatype Blob = Blob(etag: Option<string>, path: Path)

  datatype Event = Event(kind: string, data: string, queuedAt: string)

  /** Everything the database file holds. */
  datatype Db = Db(cursor: Option<string>, mirror: Mirror, media: map<Id, Blob>,
                   videos: map<Slot, Blob>, events: map<Id, Event>, lastEventId: Id)

  const EMPTY_DB := Db(None, map[], map[], map[], map[], 0)

  const MEDIA_TABLE := "lw_media"

  function Stored(row: Row): Mirrored {
    Mirrored(if row.updatedAt != "" then row.updatedAt else row.createdAt, row)
  }

  predicate AllUsable(rows: seq<Row>) {
    forall i | 0 <= i < |rows| :: rows[i].id != BadId
  }

  function ApplyRow(m: Mirror, table: string, row: Row): Mirror {
    if !row.id.RowId? then m
    else if row.deletedAt != "" then m - {Key(table, row.id.n)}
    else m[Key(table, row.id.n) := Stored(row)]
  }

  /** The mirror once `rows` have been applied in order. */
  function AfterRows(m: Mirror, table: string, rows: seq<Row>): Mirror {
    if rows == [] then m
    else ApplyRow(AfterRows(m, table, rows[..|rows| - 1]), table, rows[|rows| - 1])
  }

  /** How many tombstones found a row to delete, each at its turn. */
  function Removals(m: Mirror, table: string, rows: seq<Row>): nat {
    if rows == [] then 0
    else
      var before := rows[..|rows| - 1];
      var row := rows[|rows| - 1];
      Removals(m, table, before)
      + if row.id.RowId? && row.deletedAt != "" && Key(table, row.id.n) in AfterRows(m, table, before) then 1 else 0
  }

  function Upserts(rows: seq<Row>): nat {
    if rows == [] then 0
    else
      var row := rows[|rows| - 1];
      Upserts(rows[..|rows| - 1]) + if row.id.RowId? && row.deletedAt == "" then 1 else 0
  }

  /** Row j is the last one for this id. */
  ghost predicate Decides(rows: seq<Row>, j: int, id: Id) {
    0 <= j < |rows| && rows[j].id == RowId(id) && forall i | j < i < |rows| :: rows[i].id != RowId(id)
  }

  ghost predicate Mentions(rows: seq<Row>, id: Id) {
    exists j :: 0 <= j < |rows| && rows[j].id == RowId(id)
  }

  lemma {:induction false} AfterRowsElsewhere(m: Mirror, table: string, rows: seq<Row>, k: Key)
    requires k.table == table ==> !Mentions(rows, k.id)
    ensures k in AfterRows(m, table, rows) <==> k in m
    ensures k in m ==> AfterRows(m, table, rows)[k] == m[k]
  {
    if rows != [] {
      var before, last := rows[..|rows| - 1], rows[|rows| - 1];
      assert last == rows[|rows| - 1];
      AfterRowsElsewhere(m, table, before, k);
    }
  }

  /** Order inside a batch matters only per id: the last row for an id decides, a
      tombstone leaving nothing and any other row leaving exactly itself; every key
      no row names is left alone. */
  lemma {:induction false} LastRowDecides(m: Mirror, table: string, rows: seq<Row>, j: int, id: Id)
    requires Decides(rows, j, id)
    ensures rows[j].deletedAt != "" ==> Key(table, id) !in AfterRows(m, table, rows)
    ensures rows[j].deletedAt == "" ==>
              Key(table, id) in AfterRows(m, table, rows)
              && AfterRows(m, table, rows)[Key(table, id)]
                 == Mirrored(if rows[j].updatedAt != "" then rows[j].updatedAt else rows[j].createdAt, rows[j])
  {
    var before := rows[..|rows| - 1];
    if j < |rows| - 1 {
      assert rows[|rows| - 1].id != RowId(id);
      assert Decides(before, j, id);
      LastRowDecides(m, table, before, j, id);
    }
  }

  /** A batch that made a key disappear counted at least one removal. */
  lemma {:induction false} LostKeyIsCounted(m: Mirror, table: string, rows: seq<Row>, k: Key)
    requires k in m && k !in AfterRows(m, table, rows)
    ensures Removals(m, table, rows) > 0
    ensures exists j :: 0 <= j < |rows| && rows[j].id == RowId(k.id) && rows[j].deletedAt != "" && k.table == table
  {
    var before, last := rows[..|rows| - 1], rows[|rows| - 1];
    if k in AfterRows(m, table, before) {
      assert rows[|rows| - 1].id == RowId(k.id);
    } else {
      LostKeyIsCounted(m, table, before, k);
      var j :| 0 <= j < |before| && before[j].id == RowId(k.id) && before[j].deletedAt != "";
      assert rows[j] == before[j];
    }
  }

  /** Every row with an id and without `deleted_at` is one upsert, wherever it stands. */
  lemma {:induction false} UpsertsAddUp(rows: seq<Row>, more: seq<Row>)
    ensures Upserts(rows + more) == Upserts(rows) + Upserts(more)
    ensures forall row :: Upserts([row]) == if row.id.RowId? && row.deletedAt == "" then 1 else 0
  {
    assert forall row: Row :: [row][..0] == [];
    if more == [] {
      assert rows + more == rows;
    } else {
      UpsertsAddUp(rows, more[..|more| - 1]);
      assert (rows + more)[..|rows + more| - 1] == rows + more[..|more| - 1];
    }
  }

  /** The counts of a batch account for the table's size: every removal took one row away,
      and every upsert added at most one. */
  lemma {:induction false} RowCountsBalance(m: Mirror, table: string, rows: seq<Row>)
    ensures |m| - Removals(m, table, rows) <= |AfterRows(m, table, rows)|
    ensures |AfterRows(m, table, rows)| <= |m| - Removals(m, table, rows) + Upserts(rows)
  {
    if rows != [] {
      var before, row := AfterRows(m, table, rows[..|rows| - 1]), rows[|rows| - 1];
      RowCountsBalance(m, table, rows[..|rows| - 1]);
      if row.id.RowId? {
        SizeAfterOne(before, Key(table, row.id.n), Stored(row));
      }
    }
  }

  lemma SizeAfterOne(m: Mirror, k: Key, v: Mirrored)
    ensures |m - {k}| == if k in m then |m| - 1 else |m|
    ensures |m[k := v]| == if k in m then |m| else |m| + 1
  {
    assert (m - {k}).Keys == m.Keys - {k};
    assert m[k := v].Keys == m.Keys + {k};
    assert |m| == |m.Keys| && |m - {k}| == |(m - {k}).Keys| && |m[k := v]| == |m[k := v].Keys|;
  }

  /** The events still queued, oldest first: `ORDER BY id`. */
  function Pending(events: map<Id, Event>): (r: seq<Event>)
    ensures |r| == |events|
  {
    var ids := Ascending(events.Keys);
    assert |events.Keys| == |events|;
    seq(|ids|, i requires 0 <= i < |ids| => AscendingMember(events.Keys, i); events[ids[i]])
  }

  class KioskLocalCache {
    var cursor: Option<string>
    var mirror: Mirror
    var media: map<Id, Blob>
    var videos: map<Slot, Blob>
    var events: map<Id, Event>
    var lastEventId: Id

    function Contents(): Db
      reads this
    {
      Db(cursor, mirror, media, videos, events, lastEventId)
    }

    constructor ()
      ensures Contents() == EMPTY_DB
    {
      cursor, mirror, media, videos, events, lastEventId := None, map[], map[], map[], map[], 0;
    }

    /** Applies one table's rows in a single transaction; None is the exception that an
        unusable id raises, which rolls every row of the batch back. */
    method ApplyRows(table: string, rows: seq<Row>) returns (r: Option<(nat, nat)>)
      modifies this`mirror
      ensures r.Some? <==> AllUsable(rows)
      ensures r.None? ==> mirror == old(mirror)
      ensures r.Some? ==> mirror == AfterRows(old(mirror), table, rows)
                          && r.value == (Upserts(rows), Removals(old(mirror), table, rows))
    {
      var working := mirror;
      var upserted, deleted := 0, 0;
      for i := 0 to |rows|
        invariant forall j | 0 <= j < i :: rows[j].id != BadId
        invariant working == AfterRows(mirror, table, rows[..i])
        invariant upserted == Upserts(rows[..i]) && deleted == Removals(mirror, table, rows[..i])
      {
        var row := rows[i];
        assert rows[..i + 1][..i] == rows[..i];
        match row.id
        case NoId =>
        case BadId => return None;
        case RowId(n) =>
          if row.deletedAt != "" {
            if Key(table, n) in working {
              deleted := deleted + 1;
            }
            working := working - {Key(table, n)};
          } else {
            working := working[Key(table, n) := Stored(row)];
            upserted := upserted + 1;
          }
      }
      assert rows[..|rows|] == rows;
      mirror := working;
      r := Some((upserted, deleted));
    }

    /** Queues one outbound event under the next AUTOINCREMENT id; None is SQLITE_FULL. */
    method QueueEvent(e: Event) returns (id: Option<Id>)
      modifies this`events, this`lastEventId
      ensures id.None? <==> old(lastEventId) == MAX_ID
      ensures id.None? ==> events == old(events) && lastEventId == old(lastEventId)
      ensures id.Some? ==> id.value == lastEventId == old(lastEventId) + 1
                           && events == old(events)[lastEventId := e]
    {
      if lastEventId == MAX_ID {
        return None;
      }
      lastEventId := lastEventId + 1;
      events := events[lastEventId := e];
      id := Some(lastEventId);
    }
  }
}
