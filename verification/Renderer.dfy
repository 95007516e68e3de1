/** The slideshow the local wall is rendered from. */
module Renderer {
  import opened Basics
  import opened LocalCache
  import opened SyncEngine
  import MediaCache
  import FetchBudget
  import MirrorAgreement
  import KilledTicks

  datatype Item = Item(id: Id, caption: string, altText: string, takenAt: string)

  /** Python's `<` on strings: by code point, a proper prefix first. */
  predicate Before(a: string, b: string)
    decreases |a|
  {
    if b == "" then false
    else if a == "" then true
    else a[0] < b[0] || (a[0] == b[0] && Before(a[1..], b[1..]))
  }

  /** Sort key order, newest first: `taken_at`, then the id. */
  predicate Newer(a: Item, b: Item) {
    Before(b.takenAt, a.takenAt) || (a.takenAt == b.takenAt && a.id > b.id)
  }

  lemma {:induction false} BeforeTotal(a: string, b: string)
    ensures a == b || Before(a, b) || Before(b, a)
    ensures !(Before(a, b) && Before(b, a)) && !Before(a, a)
    decreases |a|
  {
    if a != "" {
      BeforeTotal(a[1..], a[1..]);
      if b != "" {
        BeforeTotal(a[1..], b[1..]);
        assert a == [a[0]] + a[1..] && b == [b[0]] + b[1..];
      }
    }
  }

  lemma {:induction false} BeforeTransitive(a: string, b: string, c: string)
    requires Before(a, b) && Before(b, c)
    ensures Before(a, c)
    decreases |a|
  {
    if a != "" && a[0] == b[0] && b[0] == c[0] {
      BeforeTransitive(a[1..], b[1..], c[1..]);
    }
  }

  /** `a` is the smaller one: at the first difference it has ended, or has the smaller code point. */
  ghost predicate Precedes(a: string, b: string) {
    exists i :: 0 <= i <= |a| && i < |b| && a[..i] == b[..i] && (i == |a| || a[i] < b[i])
  }

  lemma {:induction false} BeforeExactly(a: string, b: string)
    ensures Before(a, b) <==> Precedes(a, b)
    decreases |a|
  {
    if a != "" && b != "" {
      BeforeExactly(a[1..], b[1..]);
      if i :| 0 <= i <= |a[1..]| && i < |b[1..]| && a[1..][..i] == b[1..][..i]
              && (i == |a[1..]| || a[1..][i] < b[1..][i])
      {
        if a[0] == b[0] {
          assert a[..i + 1] == [a[0]] + a[1..][..i] && b[..i + 1] == [b[0]] + b[1..][..i];
        }
      }
      if i :| 0 <= i <= |a| && i < |b| && a[..i] == b[..i] && (i == |a| || a[i] < b[i]) {
        if i > 0 {
          assert a[0] == a[..i][0] && b[0] == b[..i][0];
          assert a[1..][..i - 1] == a[..i][1..] && b[1..][..i - 1] == b[..i][1..];
        } else {
          assert a[..0] == b[..0];
        }
      }
      if a[0] < b[0] {
        assert a[..0] == b[..0];
      }
    } else if b != "" {
      assert a[..0] == b[..0];
    }
  }

  /** The order of the slides, spelt out: the greater `taken_at` first, the greater id on a tie. */
  lemma NewestFirstExactly(s: seq<Item>)
    ensures NewestFirst(s) <==>
            forall i, j | 0 <= i < j < |s| ::
              Precedes(s[j].takenAt, s[i].takenAt) || (s[i].takenAt == s[j].takenAt && s[i].id > s[j].id)
  {
    forall i, j | 0 <= i < j < |s|
      ensures Before(s[j].takenAt, s[i].takenAt) <==> Precedes(s[j].takenAt, s[i].takenAt)
    {
      BeforeExactly(s[j].takenAt, s[i].takenAt);
    }
  }

  lemma NewerTransitive(a: Item, b: Item, c: Item)
    requires Newer(a, b) && Newer(b, c)
    ensures Newer(a, c)
  {
    if Before(c.takenAt, b.takenAt) && Before(b.takenAt, a.takenAt) {
      BeforeTransitive(c.takenAt, b.takenAt, a.takenAt);
    }
  }

  lemma NewerTotal(a: Item, b: Item)
    requires a.id != b.id
    ensures Newer(a, b) <==> !Newer(b, a)
  {
    BeforeTotal(a.takenAt, b.takenAt);
  }

  ghost predicate NewestFirst(s: seq<Item>) {
    forall i, j | 0 <= i < j < |s| :: Newer(s[i], s[j])
  }

  /** A row is shown unless explicitly unpublished or not yet downloaded. */
  predicate Shown(db: Db, id: Id) {
    && Key(MEDIA_TABLE, id) in db.mirror && id in db.media
    && db.mirror[Key(MEDIA_TABLE, id)].payload.published != Some(false)
  }

  function ItemOf(db: Db, id: Id): Item
    requires Key(MEDIA_TABLE, id) in db.mirror
  {
    var row := db.mirror[Key(MEDIA_TABLE, id)].payload;
    Item(id, row.caption, row.altText, row.takenAt)
  }

  /** Where a slide belongs in a list that is already newest first. */
  function Insert(s: seq<Item>, x: Item): seq<Item> {
    if s == [] || Newer(x, s[0]) then [x] + s else [s[0]] + Insert(s[1..], x)
  }

  lemma {:induction false} InsertSorts(s: seq<Item>, x: Item)
    requires NewestFirst(s) && forall i | 0 <= i < |s| :: s[i].id != x.id
    ensures NewestFirst(Insert(s, x))
    ensures forall y :: y in Insert(s, x) <==> y == x || y in s
    decreases |s|
  {
    if s != [] {
      assert s == [s[0]] + s[1..];
      NewerTotal(x, s[0]);
      if Newer(x, s[0]) {
        forall j | 0 <= j < |s| ensures Newer(x, s[j]) {
          if j > 0 { NewerTransitive(x, s[0], s[j]); }
        }
      } else {
        InsertSorts(s[1..], x);
        var rest := Insert(s[1..], x);
        forall j | 0 <= j < |rest| ensures Newer(s[0], rest[j]) {
          assert rest[j] in rest;
          assert rest[j] == x || rest[j] in s[1..];
        }
      }
    }
  }

  /** The slide of a mirrored row that is downloaded and not unpublished. */
  predicate IsSlide(db: Db, x: Item) {
    var k := Key("lw_media", x.id);
    && k in db.mirror && x.id in db.media && db.mirror[k].payload.published != Some(false)
    && x.caption == db.mirror[k].payload.caption && x.altText == db.mirror[k].payload.altText
    && x.takenAt == db.mirror[k].payload.takenAt
  }

  /** The list, exactly: every such slide once and nothing else, newest first. */
  ghost predicate IsSlideshow(db: Db, s: seq<Item>) {
    NewestFirst(s) && forall x :: x in s <==> IsSlide(db, x)
  }

  lemma {:induction false} SlideshowUnique(a: seq<Item>, b: seq<Item>)
    requires NewestFirst(a) && NewestFirst(b) && forall x :: x in a <==> x in b
    ensures a == b
    decreases |a|
  {
    assert a == [] || (a[0] in a && a[0] in b);
    assert b == [] || (b[0] in b && b[0] in a);
    if a != [] && b != [] {
      HeadsAgree(a, b);
      assert a == [a[0]] + a[1..] && b == [b[0]] + b[1..];
      forall x ensures x in a[1..] <==> x in b[1..] {
        HeadOnce(a, x);
        HeadOnce(b, x);
        assert x in a <==> x in b;
      }
      SlideshowUnique(a[1..], b[1..]);
    }
  }

  lemma HeadsAgree(a: seq<Item>, b: seq<Item>)
    requires NewestFirst(a) && NewestFirst(b) && a != [] && b != [] && a[0] in b && b[0] in a
    ensures a[0] == b[0]
  {
    if a[0] != b[0] {
      var i :| 0 <= i < |a| && a[i] == b[0];
      var j :| 0 <= j < |b| && b[j] == a[0];
      assert Newer(a[0], a[i]) && Newer(b[0], b[j]);
      BeforeTotal(a[0].takenAt, b[0].takenAt);
    }
  }

  lemma HeadOnce(a: seq<Item>, x: Item)
    requires NewestFirst(a) && a != []
    ensures x in a[1..] <==> x in a && x != a[0]
  {
    assert a == [a[0]] + a[1..];
    if x in a[1..] {
      var i :| 0 <= i < |a[1..]| && a[1..][i] == x;
      assert Newer(a[0], a[i + 1]);
      BeforeTotal(x.takenAt, x.takenAt);
    }
  }

  /** `out.sort(..., reverse=True)`. */
  function Sorted(s: seq<Item>): seq<Item> {
    if s == [] then [] else Insert(Sorted(s[1..]), s[0])
  }

  ghost predicate DistinctItems(s: seq<Item>) {
    forall i, j | 0 <= i < j < |s| :: s[i].id != s[j].id
  }

  lemma {:induction false} SortedSpec(s: seq<Item>)
    requires DistinctItems(s)
    ensures NewestFirst(Sorted(s)) && forall x :: x in Sorted(s) <==> x in s
  {
    if s != [] {
      assert s == [s[0]] + s[1..];
      SortedSpec(s[1..]);
      forall i | 0 <= i < |Sorted(s[1..])| ensures Sorted(s[1..])[i].id != s[0].id {
        assert Sorted(s[1..])[i] in s[1..];
      }
      InsertSorts(Sorted(s[1..]), s[0]);
    }
  }

  method CollectSlideshow(cache: KioskLocalCache) returns (out: seq<Item>)
    ensures IsSlideshow(cache.Contents(), out)
  {
    var db := cache.Contents();
    var ids := MediaIds(db.mirror);
    MediaCache.MediaIdsListMirror(db.mirror);
    out := [];
    for i := 0 to |ids|
      invariant DistinctItems(out)
      invariant forall x :: x in out <==> x.id in ids[..i] && Shown(db, x.id) && x == ItemOf(db, x.id)
    {
      var id := ids[i];
      assert ids[..i + 1] == ids[..i] + [id];
      assert id in ids;
      ListedInMirror(db.mirror, id);
      if Shown(db, id) {
        assert id !in ids[..i];
        forall j | 0 <= j < |out| ensures out[j].id != id {
          assert out[j] in out;
        }
        out := out + [ItemOf(db, id)];
      }
    }
    assert ids[..|ids|] == ids;
    SortedSpec(out);
    out := Sorted(out);
    forall x: Item | Shown(db, x.id) && x == ItemOf(db, x.id) ensures x in out {
      ListedInMirror(db.mirror, x.id);
    }
  }

  lemma ListedInMirror(m: Mirror, id: Id)
    ensures id in MediaIds(m) <==> Key(MEDIA_TABLE, id) in m
  {
    MediaCache.MediaIdsListMirror(m);
    if id in MediaIds(m) {
      var k :| k in m && k.table == MEDIA_TABLE && k.id == id;
      assert k == Key(MEDIA_TABLE, id);
    }
  }

  /** The path a media request is served from. */
  function ResolvePath(db: Db, id: Id): Option<Path> {
    if id in db.media then Some(db.media[id].path) else None
  }

  /** After any run of ticks, completed or killed, a media request resolves exactly for the
      recorded ids, to the recorded path, which is an existing, non-empty file. */
  lemma RecordedIdsResolve(files: Files, slug: string, turns: seq<KilledTicks.Turn>, d: Device, id: Id)
    requires KilledTicks.Lives(Device(EMPTY_DB, files), slug, turns, d)
    ensures
      var p := ResolvePath(d.db, id);
      if id in d.db.media then p == Some(d.db.media[id].path) && p.value in d.files && d.files[p.value] != []
      else p == None
  {
    KilledTicks.RecordsSurviveKills(Device(EMPTY_DB, files), slug, turns, d);
  }

  /** After any run of ticks, each completed or killed at any point, and whatever the backend
      answered, every slide on the wall can be served: its media request resolves to an
      existing, non-empty file. */
  lemma EverySlideCanBeServed(files: Files, slug: string, turns: seq<KilledTicks.Turn>, d: Device, s: seq<Item>, i: nat)
    requires KilledTicks.Lives(Device(EMPTY_DB, files), slug, turns, d)
    requires IsSlideshow(d.db, s) && i < |s|
    ensures ResolvePath(d.db, s[i].id).Some? && NonEmptyFile(d.files, ResolvePath(d.db, s[i].id).value)
  {
    RecordedIdsResolve(files, slug, turns, d, s[i].id);
    assert s[i] in s;
  }

  /** Once the mirror has caught up with a backend and no blob is missing, the
      wall shows exactly the backend's live media rows that are not unpublished. */
  lemma WallShowsTheBackend(d: Device, b: MirrorAgreement.Backend, s: seq<Item>, id: Id)
    requires d.db.mirror == MirrorAgreement.LiveRows(b) && FetchBudget.Missing(d) == {}
    requires IsSlideshow(d.db, s)
    ensures
      var k := Key("lw_media", id);
      (exists x :: x in s && x.id == id) <==>
        k in b.rows && b.rows[k].row.deletedAt == "" && b.rows[k].row.published != Some(false)
  {
    var k := Key(MEDIA_TABLE, id);
    if k in d.db.mirror {
      assert id in MediaCache.InMirror(d.db.mirror);
      assert FetchBudget.Missing(d) == {} ==> id !in FetchBudget.Missing(d);
      assert Cached(d, id);
    }
    if Shown(d.db, id) {
      assert ItemOf(d.db, id) in s;
    }
  }

  /** The order never looks at `created_at`: two rows that differ only in it make the same slide. */
  lemma CreatedAtNeverOrders(db: Db, id: Id, createdAt: string)
    requires Key(MEDIA_TABLE, id) in db.mirror
    ensures
      var m := db.mirror[Key(MEDIA_TABLE, id)];
      var db' := db.(mirror := db.mirror[Key(MEDIA_TABLE, id) := m.(payload := m.payload.(createdAt := createdAt))]);
      forall s :: IsSlideshow(db, s) <==> IsSlideshow(db', s)
  {
    var m := db.mirror[Key(MEDIA_TABLE, id)];
    var db' := db.(mirror := db.mirror[Key(MEDIA_TABLE, id) := m.(payload := m.payload.(createdAt := createdAt))]);
    forall i: Id ensures Shown(db, i) == Shown(db', i) && (Shown(db, i) ==> ItemOf(db, i) == ItemOf(db', i)) {
    }
  }
}
