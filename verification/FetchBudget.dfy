/** What one fetch pass achieves under its budget, on every device, also one whose records
    have lost their files. */
module FetchBudget {
  import opened Basics
  import opened LocalCache
  import opened SyncEngine
  import opened BackgroundVideos
  import opened MediaCache

  // ---- Replies ----

  predicate ServesBytes(r: BlobReply) {
    r.Reply? && r.code < 400 && r.code != 304 && r.disk.WriteOk? && r.body != []
  }

  predicate Is304(r: BlobReply) {
    r.Reply? && r.code == 304
  }

  /** The replies a pass counts as fetched; a 304 is among them although it caches nothing. */
  predicate CountsAsFetched(r: BlobReply) {
    ServesBytes(r) || Is304(r)
  }

  /** Bytes that stay on disk although the download failed. */
  predicate LeavesBytes(stuck: set<Path>, id: Id, r: BlobReply) {
    && r.Reply? && r.code < 400 && r.code != 304 && r.body != []
    && ((r.disk.WriteFailsAfter? && r.disk.n > 0) || (r.disk.StatFails? && MediaFile(id) in stuck))
  }

  /** What turns a missing id into a cached one: bytes served whole, or the leftovers of a
      failed download if a record from before is still there. */
  predicate Fills(d: Device, stuck: set<Path>, id: Id, r: BlobReply) {
    ServesBytes(r) || (id in d.db.media && LeavesBytes(stuck, id, r))
  }

  // ---- Which ids a pass downloads ----

  /** The missing ids, in order, up to the n-th whose reply counts as fetched. */
  function Attempted(d: Device, ids: seq<Id>, n: int, serve: Id -> BlobReply): seq<Id> {
    if ids == [] || n <= 0 then []
    else if Cached(d, ids[0]) then Attempted(d, ids[1..], n, serve)
    else [ids[0]] + Attempted(d, ids[1..], if CountsAsFetched(serve(ids[0])) then n - 1 else n, serve)
  }

  /** The attempted ids that count as fetched. */
  function Winners(d: Device, ids: seq<Id>, n: int, serve: Id -> BlobReply): seq<Id> {
    if ids == [] || n <= 0 then []
    else if !Cached(d, ids[0]) && CountsAsFetched(serve(ids[0]))
    then [ids[0]] + Winners(d, ids[1..], n - 1, serve)
    else Winners(d, ids[1..], n, serve)
  }

  function Successes(d: Device, ids: seq<Id>, serve: Id -> BlobReply): nat {
    if ids == [] then 0
    else (if !Cached(d, ids[0]) && CountsAsFetched(serve(ids[0])) then 1 else 0) + Successes(d, ids[1..], serve)
  }

  lemma {:induction false} WinnersFillTheBudget(d: Device, ids: seq<Id>, n: nat, serve: Id -> BlobReply)
    ensures |Winners(d, ids, n, serve)| == Min(n, Successes(d, ids, serve))
    decreases |ids|
  {
    if ids != [] && n > 0 {
      WinnersFillTheBudget(d, ids[1..], n - 1, serve);
      WinnersFillTheBudget(d, ids[1..], n, serve);
    }
  }

  lemma {:induction false} WinnersAreAttempted(d: Device, ids: seq<Id>, n: int, serve: Id -> BlobReply, i: Id)
    ensures i in Attempted(d, ids, n, serve) ==> i in ids && !Cached(d, i)
    ensures i in Winners(d, ids, n, serve) <==> i in Attempted(d, ids, n, serve) && CountsAsFetched(serve(i))
    decreases |ids|
  {
    if ids != [] && n > 0 {
      WinnersAreAttempted(d, ids[1..], n - 1, serve, i);
      WinnersAreAttempted(d, ids[1..], n, serve, i);
    }
  }

  lemma {:induction false} WinnersDistinct(d: Device, ids: seq<Id>, n: int, serve: Id -> BlobReply)
    requires Distinct(ids)
    ensures |Elements(Winners(d, ids, n, serve))| == |Winners(d, ids, n, serve)|
    ensures forall i | i in Winners(d, ids, n, serve) :: i in ids
    decreases |ids|
  {
    if ids == [] || n <= 0 {
      assert Elements([]) == {};
    } else {
      WinnersDistinct(d, ids[1..], n - 1, serve);
      WinnersDistinct(d, ids[1..], n, serve);
      if !Cached(d, ids[0]) && CountsAsFetched(serve(ids[0])) {
        var rest := Winners(d, ids[1..], n - 1, serve);
        assert ids[0] !in rest;
        assert Elements([ids[0]] + rest) == {ids[0]} + Elements(rest);
      }
    }
  }

  lemma {:induction false} DependOnCached(d: Device, e: Device, ids: seq<Id>, n: int, serve: Id -> BlobReply)
    requires forall i | i in ids :: Cached(d, i) <==> Cached(e, i)
    ensures Winners(d, ids, n, serve) == Winners(e, ids, n, serve)
    ensures Attempted(d, ids, n, serve) == Attempted(e, ids, n, serve)
    decreases |ids|
  {
    if ids != [] {
      assert ids[0] in ids;
      assert forall i | i in ids[1..] :: i in ids;
      DependOnCached(d, e, ids[1..], n - 1, serve);
      DependOnCached(d, e, ids[1..], n, serve);
    }
  }

  // ---- One download ----

  /** Handling one missing id settles that id and no other. */
  lemma DownloadSettlesOne(d: Device, stuck: set<Path>, id: Id, reply: BlobReply)
    requires OwnMedia(d) && !Cached(d, id)
    ensures
      var (d', ok) := DownloadMedia(d, stuck, id, reply);
      && OwnMedia(d') && d'.db == d.db.(media := d'.db.media) && (ok <==> CountsAsFetched(reply))
      && (Cached(d', id) <==> Fills(d, stuck, id, reply))
      && (forall i | i != id :: SameBlob(d, d', i))
      && (reply.Reply? && reply.code == 404 ==> Forgotten(d, d', stuck, id))
  {
    if reply.Reply? && reply.disk.WriteFailsAfter? && reply.disk.n < |reply.body| {
      assert |reply.body[..reply.disk.n]| == reply.disk.n;
    }
  }

  lemma SameBlobSameCached(d: Device, d': Device, i: Id)
    requires OwnMedia(d) && OwnMedia(d') && SameBlob(d, d', i)
    ensures Cached(d', i) <==> Cached(d, i)
  {
  }

  // ---- One pass ----

  ghost predicate Settles(d: Device, d': Device, stuck: set<Path>, attempted: seq<Id>, serve: Id -> BlobReply) {
    forall i :: Cached(d', i) <==> Cached(d, i) || (i in attempted && Fills(d, stuck, i, serve(i)))
  }

  lemma SettlesCompose(d: Device, d1: Device, d': Device, stuck: set<Path>, id: Id, rest: seq<Id>,
                       serve: Id -> BlobReply)
    requires OwnMedia(d) && OwnMedia(d1) && !Cached(d, id)
    requires Cached(d1, id) <==> Fills(d, stuck, id, serve(id))
    requires forall i | i != id :: SameBlob(d, d1, i)
    requires id !in rest && Settles(d1, d', stuck, rest, serve)
    ensures Settles(d, d', stuck, [id] + rest, serve)
  {
    forall i ensures Cached(d', i) <==> Cached(d, i) || (i in [id] + rest && Fills(d, stuck, i, serve(i))) {
      if i != id {
        SameBlobSameCached(d, d1, i);
        assert i in [id] + rest <==> i in rest;
      }
    }
  }

  /** What fetching `ids` under a budget of n does to the device and to the count. */
  ghost predicate Fetches(d: Device, d': Device, counted: int, stuck: set<Path>, ids: seq<Id>, n: int,
                          serve: Id -> BlobReply) {
    && OwnMedia(d') && d'.db == d.db.(media := d'.db.media)
    && counted == |Winners(d, ids, n, serve)|
    && Settles(d, d', stuck, Attempted(d, ids, n, serve), serve)
  }

  lemma {:induction false} FetchSettles(d: Device, stuck: set<Path>, ids: seq<Id>, limit: nat,
                                        serve: Id -> BlobReply, c: Counts)
    requires OwnMedia(d) && Distinct(ids) && c.fetched <= limit
    ensures
      var (d', c') := FetchFrom(d, stuck, ids, limit, serve, c);
      Fetches(d, d', c'.fetched - c.fetched, stuck, ids, limit - c.fetched, serve)
    decreases |ids|
  {
    if ids != [] && c.fetched < limit {
      if Cached(d, ids[0]) {
        FetchSettles(d, stuck, ids[1..], limit, serve, c.(skipped := c.skipped + 1));
      } else {
        var (d1, ok) := DownloadMedia(d, stuck, ids[0], serve(ids[0]));
        var c1 := if ok then c.(fetched := c.fetched + 1) else c.(errored := c.errored + 1);
        DownloadSettlesOne(d, stuck, ids[0], serve(ids[0]));
        FetchSettles(d1, stuck, ids[1..], limit, serve, c1);
        var (d', c') := FetchFrom(d1, stuck, ids[1..], limit, serve, c1);
        HeadFetched(d, stuck, ids, limit, serve, c);
        HeadSettles(d, d1, d', c'.fetched - c1.fetched, stuck, ids, limit - c.fetched, serve);
      }
    }
  }

  lemma HeadSettles(d: Device, d1: Device, d': Device, counted: int, stuck: set<Path>, ids: seq<Id>, n: int,
                    serve: Id -> BlobReply)
    requires OwnMedia(d) && OwnMedia(d1) && Distinct(ids) && ids != [] && n > 0 && !Cached(d, ids[0])
    requires d1.db == d.db.(media := d1.db.media)
    requires Cached(d1, ids[0]) <==> Fills(d, stuck, ids[0], serve(ids[0]))
    requires forall i | i != ids[0] :: SameBlob(d, d1, i)
    requires Fetches(d1, d', counted, stuck, ids[1..], if CountsAsFetched(serve(ids[0])) then n - 1 else n, serve)
    ensures Fetches(d, d', counted + if CountsAsFetched(serve(ids[0])) then 1 else 0, stuck, ids, n, serve)
  {
    var left := if CountsAsFetched(serve(ids[0])) then n - 1 else n;
    TailUnaffected(d, d1, ids, left, serve);
    WinnersAreAttempted(d, ids[1..], left, serve, ids[0]);
    HeadTaken(d, ids, n, serve);
    SettlesCompose(d, d1, d', stuck, ids[0], Attempted(d, ids[1..], left, serve), serve);
  }

  lemma HeadTaken(d: Device, ids: seq<Id>, n: int, serve: Id -> BlobReply)
    requires ids != [] && n > 0 && !Cached(d, ids[0])
    ensures
      var (id, left) := (ids[0], if CountsAsFetched(serve(ids[0])) then n - 1 else n);
      && Attempted(d, ids, n, serve) == [id] + Attempted(d, ids[1..], left, serve)
      && |Winners(d, ids, n, serve)| == |Winners(d, ids[1..], left, serve)| + n - left
  {
  }

  lemma HeadFetched(d: Device, stuck: set<Path>, ids: seq<Id>, limit: nat, serve: Id -> BlobReply, c: Counts)
    requires ids != [] && c.fetched < limit && !Cached(d, ids[0])
    ensures
      var (d1, ok) := DownloadMedia(d, stuck, ids[0], serve(ids[0]));
      var c1 := if ok then c.(fetched := c.fetched + 1) else c.(errored := c.errored + 1);
      FetchFrom(d, stuck, ids, limit, serve, c) == FetchFrom(d1, stuck, ids[1..], limit, serve, c1)
  {
  }

  lemma TailUnaffected(d: Device, d1: Device, ids: seq<Id>, n: int, serve: Id -> BlobReply)
    requires ids != [] && Distinct(ids) && OwnMedia(d) && OwnMedia(d1)
    requires forall i | i != ids[0] :: SameBlob(d, d1, i)
    ensures Winners(d1, ids[1..], n, serve) == Winners(d, ids[1..], n, serve)
    ensures Attempted(d1, ids[1..], n, serve) == Attempted(d, ids[1..], n, serve)
    ensures ids[0] !in ids[1..]
  {
    forall i | i in ids[1..] ensures Cached(d, i) <==> Cached(d1, i) {
      SameBlobSameCached(d, d1, i);
    }
    DependOnCached(d, d1, ids[1..], n, serve);
  }

  /** One fetch pass under budget `limit`: it counts min(limit, successes) downloads, a
      failed download never uses the budget, and exactly those attempted ids become cached
      whose bytes were served whole or whose old record meets leftover bytes. */
  lemma PassIsExact(d: Device, stuck: set<Path>, limit: nat, serve: Id -> BlobReply)
    requires OwnMedia(d)
    ensures
      var ids := MediaIds(d.db.mirror);
      var (d', c) := FetchPass(d, stuck, limit, serve);
      && OwnMedia(d') && d'.db == d.db.(media := d'.db.media)
      && c.fetched == |Winners(d, ids, limit, serve)| == Min(limit, Successes(d, ids, serve))
      && Settles(d, d', stuck, Attempted(d, ids, limit, serve), serve)
  {
    MediaIdsListMirror(d.db.mirror);
    FetchSettles(d, stuck, MediaIds(d.db.mirror), limit, serve, ZERO);
    WinnersFillTheBudget(d, MediaIds(d.db.mirror), limit, serve);
  }

  /** What becomes of a pass when its first id is attempted. */
  lemma HeadAttempted(d: Device, stuck: set<Path>, ids: seq<Id>, limit: nat, serve: Id -> BlobReply, c: Counts)
    requires ids != [] && c.fetched < limit && !Cached(d, ids[0]) && OwnMedia(d) && Distinct(ids)
    ensures
      var (d1, ok) := DownloadMedia(d, stuck, ids[0], serve(ids[0]));
      var c1 := if ok then c.(fetched := c.fetched + 1) else c.(errored := c.errored + 1);
      && OwnMedia(d1) && ids[0] !in ids[1..]
      && FetchFrom(d, stuck, ids, limit, serve, c) == FetchFrom(d1, stuck, ids[1..], limit, serve, c1)
      && Attempted(d, ids, limit - c.fetched, serve)
      == [ids[0]] + Attempted(d1, ids[1..], limit - c1.fetched, serve)
  {
    var (d1, ok) := DownloadMedia(d, stuck, ids[0], serve(ids[0]));
    DownloadSettlesOne(d, stuck, ids[0], serve(ids[0]));
    TailUnaffected(d, d1, ids, limit - if ok then c.fetched + 1 else c.fetched, serve);
    HeadTaken(d, ids, limit - c.fetched, serve);
    HeadFetched(d, stuck, ids, limit, serve, c);
  }

  lemma HeadIsNotTaken(d: Device, ids: seq<Id>, n: int, serve: Id -> BlobReply)
    requires ids != [] && Cached(d, ids[0]) && Distinct(ids)
    ensures Attempted(d, ids, n, serve) == Attempted(d, ids[1..], n, serve)
    ensures ids[0] !in Attempted(d, ids, n, serve)
  {
    WinnersAreAttempted(d, ids, n, serve, ids[0]);
  }

  /** How the counts grow over ids of which so many are attempted. */
  predicate Counted(c: Counts, c': Counts, attempted: nat, total: nat, limit: int) {
    && c'.fetched + c'.errored == c.fetched + c.errored + attempted
    && (c'.fetched < limit ==> c'.fetched + c'.skipped + c'.errored == c.fetched + c.skipped + c.errored + total)
  }

  lemma {:induction false} FetchCounts(d: Device, stuck: set<Path>, ids: seq<Id>, limit: nat,
                                       serve: Id -> BlobReply, c: Counts)
    requires OwnMedia(d) && Distinct(ids) && c.fetched <= limit
    ensures Counted(c, FetchFrom(d, stuck, ids, limit, serve, c).1,
                    |Attempted(d, ids, limit - c.fetched, serve)|, |ids|, limit)
    decreases |ids|
  {
    if ids != [] && c.fetched < limit {
      if Cached(d, ids[0]) {
        FetchCounts(d, stuck, ids[1..], limit, serve, c.(skipped := c.skipped + 1));
        HeadIsNotTaken(d, ids, limit - c.fetched, serve);
      } else {
        var (d1, ok) := DownloadMedia(d, stuck, ids[0], serve(ids[0]));
        HeadAttempted(d, stuck, ids, limit, serve, c);
        FetchCounts(d1, stuck, ids[1..], limit, serve,
                    if ok then c.(fetched := c.fetched + 1) else c.(errored := c.errored + 1));
      }
    }
  }

  /** The three counts of a pass: every attempted id is fetched or errored, and a pass that does
      not use up its budget has counted every mirrored id once. */
  lemma PassCountsEveryId(d: Device, stuck: set<Path>, limit: nat, serve: Id -> BlobReply)
    requires OwnMedia(d)
    ensures
      var (ids, c) := (MediaIds(d.db.mirror), FetchPass(d, stuck, limit, serve).1);
      && c.fetched + c.errored == |Attempted(d, ids, limit, serve)|
      && (c.fetched < limit ==> c.fetched + c.skipped + c.errored == |ids|)
  {
    MediaIdsListMirror(d.db.mirror);
    FetchCounts(d, stuck, MediaIds(d.db.mirror), limit, serve, ZERO);
  }

  lemma ForgetsCompose(d: Device, d1: Device, d': Device, stuck: set<Path>, i: Id)
    requires OwnMedia(d)
    ensures Forgotten(d, d1, stuck, i) && SameBlob(d1, d', i) ==> Forgotten(d, d', stuck, i)
    ensures SameBlob(d, d1, i) && Forgotten(d1, d', stuck, i) ==> Forgotten(d, d', stuck, i)
    ensures SameBlob(d, d1, i) && SameBlob(d1, d', i) ==> SameBlob(d, d', i)
  {
  }

  /** An id that is not among those left is not touched; one attempted and answered 404 is
      forgotten. */
  ghost predicate Forgets(d: Device, d': Device, stuck: set<Path>, ids: seq<Id>, attempted: seq<Id>,
                          serve: Id -> BlobReply, i: Id) {
    && (i !in ids ==> SameBlob(d, d', i))
    && (i in ids && i in attempted && serve(i).Reply? && serve(i).code == 404 ==> Forgotten(d, d', stuck, i))
  }

  lemma HeadForgets(d: Device, d1: Device, d': Device, stuck: set<Path>, ids: seq<Id>, taken: seq<Id>,
                    serve: Id -> BlobReply, i: Id)
    requires OwnMedia(d) && ids != [] && !Cached(d, ids[0]) && ids[0] !in ids[1..]
    requires d1 == DownloadMedia(d, stuck, ids[0], serve(ids[0])).0
    requires Forgets(d1, d', stuck, ids[1..], taken, serve, i)
    ensures Forgets(d, d', stuck, ids, [ids[0]] + taken, serve, i)
  {
    DownloadSettlesOne(d, stuck, ids[0], serve(ids[0]));
    ForgetsCompose(d, d1, d', stuck, i);
  }

  lemma {:induction false} FetchForgets(d: Device, stuck: set<Path>, ids: seq<Id>, limit: nat, serve: Id -> BlobReply,
                                        c: Counts, i: Id)
    requires OwnMedia(d) && Distinct(ids)
    ensures Forgets(d, FetchFrom(d, stuck, ids, limit, serve, c).0, stuck, ids,
                    Attempted(d, ids, limit - c.fetched, serve), serve, i)
    decreases |ids|
  {
    if ids != [] && c.fetched < limit {
      if Cached(d, ids[0]) {
        FetchForgets(d, stuck, ids[1..], limit, serve, c.(skipped := c.skipped + 1), i);
        HeadIsNotTaken(d, ids, limit - c.fetched, serve);
      } else {
        var (d1, ok) := DownloadMedia(d, stuck, ids[0], serve(ids[0]));
        var c1 := if ok then c.(fetched := c.fetched + 1) else c.(errored := c.errored + 1);
        HeadAttempted(d, stuck, ids, limit, serve, c);
        FetchForgets(d1, stuck, ids[1..], limit, serve, c1, i);
        HeadForgets(d, d1, FetchFrom(d, stuck, ids, limit, serve, c).0, stuck, ids,
                    Attempted(d1, ids[1..], limit - c1.fetched, serve), serve, i);
      }
    }
  }

  /** An attempted id that is answered 404 loses its record, and its file with it. */
  lemma RefusedIdsAreForgotten(d: Device, stuck: set<Path>, limit: nat, serve: Id -> BlobReply, i: Id)
    requires OwnMedia(d) && i in Attempted(d, MediaIds(d.db.mirror), limit, serve)
    requires serve(i).Reply? && serve(i).code == 404
    ensures Forgotten(d, FetchPass(d, stuck, limit, serve).0, stuck, i)
  {
    MediaIdsListMirror(d.db.mirror);
    ForgottenAmong(d, stuck, MediaIds(d.db.mirror), limit, serve, i);
  }

  lemma ForgottenAmong(d: Device, stuck: set<Path>, ids: seq<Id>, limit: nat, serve: Id -> BlobReply, i: Id)
    requires OwnMedia(d) && Distinct(ids) && i in Attempted(d, ids, limit, serve)
    requires serve(i).Reply? && serve(i).code == 404
    ensures Forgotten(d, FetchFrom(d, stuck, ids, limit, serve, ZERO).0, stuck, i)
  {
    WinnersAreAttempted(d, ids, limit, serve, i);
    assert limit - ZERO.fetched == limit;
    FetchForgets(d, stuck, ids, limit, serve, ZERO, i);
  }

  // ---- Fetched against cached ----

  /** The mirrored ids a pass would try to download. */
  function Missing(d: Device): set<Id> {
    set i | i in InMirror(d.db.mirror) && !Cached(d, i)
  }

  /** Attempted ids whose old record passes off leftover bytes as its file. */
  function Leftovers(d: Device, stuck: set<Path>, limit: int, serve: Id -> BlobReply): set<Id> {
    set i | i in Attempted(d, MediaIds(d.db.mirror), limit, serve) && i in d.db.media && LeavesBytes(stuck, i, serve(i))
  }

  /** Ids that were counted as fetched for a 304. */
  function Unmodified(d: Device, limit: int, serve: Id -> BlobReply): set<Id> {
    set i | i in Winners(d, MediaIds(d.db.mirror), limit, serve) && Is304(serve(i))
  }

  function NewlyCached(d: Device, stuck: set<Path>, limit: int, serve: Id -> BlobReply): set<Id> {
    Missing(d) - Missing(FetchPass(d, stuck, limit, serve).0)
  }

  lemma WhetherNewlyCached(d: Device, stuck: set<Path>, limit: nat, serve: Id -> BlobReply, i: Id)
    requires OwnMedia(d)
    ensures i in Missing(FetchPass(d, stuck, limit, serve).0) ==> i in Missing(d)
    ensures i in NewlyCached(d, stuck, limit, serve) <==>
            i in Attempted(d, MediaIds(d.db.mirror), limit, serve) && Fills(d, stuck, i, serve(i))
  {
    var d' := FetchPass(d, stuck, limit, serve).0;
    PassIsExact(d, stuck, limit, serve);
    MediaIdsListMirror(d.db.mirror);
    WinnersAreAttempted(d, MediaIds(d.db.mirror), limit, serve, i);
    assert InMirror(d'.db.mirror) == InMirror(d.db.mirror);
  }

  lemma NewlyCachedExactly(d: Device, stuck: set<Path>, limit: nat, serve: Id -> BlobReply)
    requires OwnMedia(d)
    ensures
      var winners := Elements(Winners(d, MediaIds(d.db.mirror), limit, serve));
      && Missing(FetchPass(d, stuck, limit, serve).0) <= Missing(d)
      && NewlyCached(d, stuck, limit, serve)
      == winners - Unmodified(d, limit, serve) + Leftovers(d, stuck, limit, serve)
      && Leftovers(d, stuck, limit, serve) !! winners
  {
    forall i | i in Missing(FetchPass(d, stuck, limit, serve).0) ensures i in Missing(d) {
      WhetherNewlyCached(d, stuck, limit, serve, i);
    }
    var winners := Elements(Winners(d, MediaIds(d.db.mirror), limit, serve));
    var (same, left) := (Unmodified(d, limit, serve), Leftovers(d, stuck, limit, serve));
    forall i ensures i in NewlyCached(d, stuck, limit, serve) <==> i in winners - same + left {
      WhetherNewlyCached(d, stuck, limit, serve, i);
      WhichSets(d, stuck, limit, serve, i);
    }
    forall i | i in left ensures i !in winners {
      WhichSets(d, stuck, limit, serve, i);
    }
  }

  lemma WhichSets(d: Device, stuck: set<Path>, limit: nat, serve: Id -> BlobReply, i: Id)
    ensures
      var ids := MediaIds(d.db.mirror);
      var tried := i in Attempted(d, ids, limit, serve);
      && (i in Elements(Winners(d, ids, limit, serve)) <==> tried && CountsAsFetched(serve(i)))
      && (i in Unmodified(d, limit, serve) <==> tried && Is304(serve(i)))
      && (i in Leftovers(d, stuck, limit, serve) <==> tried && i in d.db.media && LeavesBytes(stuck, i, serve(i)))
  {
    WinnersAreAttempted(d, MediaIds(d.db.mirror), limit, serve, i);
  }

  /** The reported count is off by the 304s and the leftovers; the ids counted as fetched
      are exactly the newly cached ones if and only if there is neither. */
  lemma FetchedAgainstCached(d: Device, stuck: set<Path>, limit: nat, serve: Id -> BlobReply)
    requires OwnMedia(d)
    ensures
      var winners := Elements(Winners(d, MediaIds(d.db.mirror), limit, serve));
      var fetched := FetchPass(d, stuck, limit, serve).1.fetched;
      var (added, same, left) := (NewlyCached(d, stuck, limit, serve), Unmodified(d, limit, serve),
                                  Leftovers(d, stuck, limit, serve));
      && fetched + |left| == |added| + |same|
      && (fetched == |added| <==> |left| == |same|)
      && (added == winners <==> same == {} && left == {})
  {
    var winners := Elements(Winners(d, MediaIds(d.db.mirror), limit, serve));
    var (same, left) := (Unmodified(d, limit, serve), Leftovers(d, stuck, limit, serve));
    MediaIdsListMirror(d.db.mirror);
    PassIsExact(d, stuck, limit, serve);
    WinnersDistinct(d, MediaIds(d.db.mirror), limit, serve);
    NewlyCachedExactly(d, stuck, limit, serve);
    assert same <= winners;
    SplitSizes(winners, same, left);
  }

  lemma SplitSizes(whole: set<Id>, part: set<Id>, other: set<Id>)
    requires part <= whole && other !! whole
    ensures |whole - part + other| + |part| == |whole| + |other|
    ensures whole - part + other == whole <==> part == {} && other == {}
  {
    assert (whole - part) + part == whole;
    assert |whole - part + other| == |whole - part| + |other|;
    if whole - part + other == whole {
      assert forall x | x in other :: x in whole - part + other;
      assert forall x | x in part :: x in whole - part + other;
    }
  }

  /** Why the agreement is stated on the ids: a 304 and a leftover cancel out in the counts.
      Both records have lost their files; the first answer restores nothing and is counted,
      the second leaves a cut file behind and is not. */
  lemma CountsCanAgreeByAccident(d: Device, i: Id, j: Id, bytes: Bytes, serve: Id -> BlobReply)
    requires i != j && OwnMedia(d) && i in d.db.media && j in d.db.media && |bytes| > 1
    requires MediaFile(i) !in d.files && MediaFile(j) !in d.files
    requires Is304(serve(i)) && serve(j) == Reply(200, bytes, None, WriteFailsAfter(1))
    ensures
      var (d', c) := FetchFrom(d, {}, [i, j], 2, serve, ZERO);
      c == Counts(1, 0, 1) && !Cached(d', i) && Cached(d', j)
  {
    var d1 := d.(files := d.files[MediaFile(j) := bytes[..1]]);
    assert [i, j][1..] == [j] && [j][1..] == [];
    assert |bytes[..1]| == 1;
    assert FetchFrom(d, {}, [j], 2, serve, Counts(1, 0, 0)) == FetchFrom(d1, {}, [], 2, serve, Counts(1, 0, 1));
  }

  ghost predicate No304(serve: Id -> BlobReply) {
    forall i: Id :: !Is304(serve(i))
  }

  /** The missing ids the backend would serve with bytes. */
  function Servable(d: Device, serve: Id -> BlobReply): set<Id> {
    set i | i in Missing(d) && ServesBytes(serve(i))
  }

  lemma {:induction false} SuccessesCounted(d: Device, ids: seq<Id>, serve: Id -> BlobReply)
    requires Distinct(ids)
    ensures Successes(d, ids, serve) == |set i | i in ids && !Cached(d, i) && CountsAsFetched(serve(i))|
    decreases |ids|
  {
    var good := set i | i in ids && !Cached(d, i) && CountsAsFetched(serve(i));
    if ids == [] {
      assert good == {};
    } else {
      SuccessesCounted(d, ids[1..], serve);
      var rest := set i | i in ids[1..] && !Cached(d, i) && CountsAsFetched(serve(i));
      assert ids[0] !in ids[1..];
      assert forall i :: i in ids <==> i == ids[0] || i in ids[1..];
      if !Cached(d, ids[0]) && CountsAsFetched(serve(ids[0])) {
        assert good == rest + {ids[0]};
      } else {
        assert good == rest;
      }
    }
  }

  /** Against a backend that sends no 304 a pass counts exactly min(limit, number of missing
      ids served with bytes), and caches exactly those plus the leftovers; on a device whose
      records all have their files there are no leftovers. */
  lemma PassCachesTheMinimum(d: Device, stuck: set<Path>, limit: nat, serve: Id -> BlobReply)
    requires OwnMedia(d) && No304(serve)
    ensures
      var expected := Min(limit, |Servable(d, serve)|);
      && FetchPass(d, stuck, limit, serve).1.fetched == expected
      && |NewlyCached(d, stuck, limit, serve)| == expected + |Leftovers(d, stuck, limit, serve)|
      && (Backed(d) ==> Leftovers(d, stuck, limit, serve) == {})
  {
    PassIsExact(d, stuck, limit, serve);
    FetchedAgainstCached(d, stuck, limit, serve);
    ServableCounted(d, serve);
    assert Unmodified(d, limit, serve) == {};
    forall i | i in Leftovers(d, stuck, limit, serve) ensures !Backed(d) {
      WinnersAreAttempted(d, MediaIds(d.db.mirror), limit, serve, i);
    }
  }

  lemma ServableCounted(d: Device, serve: Id -> BlobReply)
    requires No304(serve)
    ensures Successes(d, MediaIds(d.db.mirror), serve) == |Servable(d, serve)|
  {
    var ids := MediaIds(d.db.mirror);
    MediaIdsListMirror(d.db.mirror);
    SuccessesCounted(d, ids, serve);
    assert (set i | i in ids && !Cached(d, i) && CountsAsFetched(serve(i))) == Servable(d, serve);
  }

  // ---- 304 ----

  lemma {:induction false} All304(d: Device, stuck: set<Path>, ids: seq<Id>, limit: nat, serve: Id -> BlobReply,
                                  c: Counts)
    requires c.fetched <= limit && forall i | i in ids && !Cached(d, i) :: Is304(serve(i))
    ensures FetchFrom(d, stuck, ids, limit, serve, c).0 == d
    ensures FetchFrom(d, stuck, ids, limit, serve, c).1.fetched == Min(limit, c.fetched + Successes(d, ids, serve))
    decreases |ids|
  {
    if ids != [] && c.fetched < limit {
      assert ids[0] in ids && forall i | i in ids[1..] :: i in ids;
      All304(d, stuck, ids[1..], limit, serve,
             if Cached(d, ids[0]) then c.(skipped := c.skipped + 1) else c.(fetched := c.fetched + 1));
    }
  }

  /** A 304 spends the budget and caches nothing, on any device: if every missing id is
      answered so, the pass reports min(limit, missing) fetched and changes nothing at all. */
  lemma A304SpendsTheBudget(d: Device, stuck: set<Path>, limit: nat, serve: Id -> BlobReply)
    requires forall i | i in Missing(d) :: Is304(serve(i))
    ensures FetchPass(d, stuck, limit, serve).0 == d
    ensures FetchPass(d, stuck, limit, serve).1.fetched == Min(limit, |Missing(d)|)
  {
    var ids := MediaIds(d.db.mirror);
    MediaIdsListMirror(d.db.mirror);
    assert forall i | i in ids && !Cached(d, i) :: i in Missing(d);
    All304(d, stuck, ids, limit, serve, ZERO);
    SuccessesCounted(d, ids, serve);
    assert (set i | i in ids && !Cached(d, i) && CountsAsFetched(serve(i))) == Missing(d);
  }

  lemma {:induction false} StepsCacheNothing(p: Progress, stuck: set<Path>, tables: seq<Table>, i: Id)
    requires OwnMedia(p.d)
    ensures
      var d' := TableSteps(p, stuck, tables).d;
      OwnMedia(d') && d'.db.videos == p.d.db.videos && (Cached(d', i) ==> Cached(p.d, i))
    decreases |tables|
  {
    if tables != [] && !p.raised {
      PurgesTheTombstoned(WithRows(p.d, tables[0]), stuck, tables[0].rows, i);
      StepsCacheNothing(TableStep(p, stuck, tables[0]), stuck, tables[1..], i);
    }
  }

  lemma PullCachesNothing(d: Device, w: World, i: Id)
    requires OwnMedia(d)
    ensures
      var d' := Pull(d, w.stuck, w.manifest).0;
      OwnMedia(d') && d'.db.videos == d.db.videos && (Cached(d', i) ==> Cached(d, i))
  {
    if w.manifest.Answer? && w.manifest.body.Some? {
      StepsCacheNothing(Progress(d, 0, 0, false), w.stuck, w.manifest.body.value.tables, i);
    }
  }

  lemma A304RestoresNothing(d: Device, slug: string, w: World, i: Id)
    requires OwnMedia(d) && Own(d) && !Cached(d, i) && Is304(w.media(i))
    ensures OwnMedia(Tick(d, slug, w)) && Own(Tick(d, slug, w)) && !Cached(Tick(d, slug, w), i)
  {
    PullCachesNothing(d, w, i);
    var (pulled, result) := Pull(d, w.stuck, w.manifest);
    if result.Pulled? {
      PassIsExact(pulled, w.stuck, FETCH_LIMIT, w.media);
      VideosStayInTheirLane(FetchPass(pulled, w.stuck, FETCH_LIMIT, w.media).0, slug, w);
    }
  }

  /** A file that has vanished stays missing for as long as the backend answers its etag with
      304, through any number of ticks and whatever else happens in them. */
  lemma {:induction false} A304NeverRestores(d: Device, slug: string, ws: seq<World>, i: Id)
    requires OwnMedia(d) && Own(d) && !Cached(d, i)
    requires forall k | 0 <= k < |ws| :: Is304(ws[k].media(i))
    ensures OwnMedia(Ticks(d, slug, ws)) && Own(Ticks(d, slug, ws)) && !Cached(Ticks(d, slug, ws), i)
  {
    if ws != [] {
      A304NeverRestores(d, slug, ws[..|ws| - 1], i);
      A304RestoresNothing(Ticks(d, slug, ws[..|ws| - 1]), slug, ws[|ws| - 1], i);
    }
  }

  // ---- What a cached id holds ----

  lemma {:induction false} FetchSpares(d: Device, stuck: set<Path>, ids: seq<Id>, limit: int, serve: Id -> BlobReply,
                                       c: Counts, i: Id)
    requires OwnMedia(d) && Cached(d, i)
    ensures
      var d' := FetchFrom(d, stuck, ids, limit, serve, c).0;
      OwnMedia(d') && SameBlob(d, d', i) && d'.db == d.db.(media := d'.db.media)
    decreases |ids|
  {
    if ids != [] && c.fetched < limit {
      if Cached(d, ids[0]) {
        FetchSpares(d, stuck, ids[1..], limit, serve, c.(skipped := c.skipped + 1), i);
      } else {
        var (d', ok) := DownloadMedia(d, stuck, ids[0], serve(ids[0]));
        DownloadSettlesOne(d, stuck, ids[0], serve(ids[0]));
        FetchSpares(d', stuck, ids[1..], limit, serve,
                    if ok then c.(fetched := c.fetched + 1) else c.(errored := c.errored + 1), i);
      }
    }
  }

  /** The record and the file of i are what the reply carried. */
  predicate Holds(d: Device, i: Id, r: BlobReply)
    requires r.Reply?
  {
    && i in d.db.media && d.db.media[i] == Blob(r.etag, MediaFile(i))
    && MediaFile(i) in d.files && d.files[MediaFile(i)] == r.body
  }

  lemma {:induction false} FetchDelivers(d: Device, stuck: set<Path>, ids: seq<Id>, limit: int, serve: Id -> BlobReply,
                                         c: Counts, i: Id)
    requires OwnMedia(d) && Distinct(ids)
    requires i in Attempted(d, ids, limit - c.fetched, serve) && ServesBytes(serve(i))
    ensures Holds(FetchFrom(d, stuck, ids, limit, serve, c).0, i, serve(i))
    decreases |ids|
  {
    if Cached(d, ids[0]) {
      FetchDelivers(d, stuck, ids[1..], limit, serve, c.(skipped := c.skipped + 1), i);
    } else {
      var (d1, ok) := DownloadMedia(d, stuck, ids[0], serve(ids[0]));
      DownloadSettlesOne(d, stuck, ids[0], serve(ids[0]));
      var c1 := if ok then c.(fetched := c.fetched + 1) else c.(errored := c.errored + 1);
      if i == ids[0] {
        FetchSpares(d1, stuck, ids[1..], limit, serve, c1, i);
      } else {
        TailUnaffected(d, d1, ids, limit - c1.fetched, serve);
        FetchDelivers(d1, stuck, ids[1..], limit, serve, c1, i);
      }
    }
  }

  /** Every id a pass fetches with bytes ends with the served etag and exactly the served
      bytes. */
  lemma WinnersHoldTheBody(d: Device, stuck: set<Path>, limit: nat, serve: Id -> BlobReply, i: Id)
    requires OwnMedia(d) && i in Winners(d, MediaIds(d.db.mirror), limit, serve) && ServesBytes(serve(i))
    ensures Holds(FetchPass(d, stuck, limit, serve).0, i, serve(i))
  {
    MediaIdsListMirror(d.db.mirror);
    DeliveredAmong(d, stuck, MediaIds(d.db.mirror), limit, serve, i);
  }

  lemma DeliveredAmong(d: Device, stuck: set<Path>, ids: seq<Id>, limit: nat, serve: Id -> BlobReply, i: Id)
    requires OwnMedia(d) && Distinct(ids) && i in Winners(d, ids, limit, serve) && ServesBytes(serve(i))
    ensures Holds(FetchFrom(d, stuck, ids, limit, serve, ZERO).0, i, serve(i))
  {
    WinnersAreAttempted(d, ids, limit, serve, i);
    assert limit - ZERO.fetched == limit;
    FetchDelivers(d, stuck, ids, limit, serve, ZERO, i);
  }
}
