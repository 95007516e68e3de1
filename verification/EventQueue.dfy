/** The outbound queue: events queued by the local server at any moment, batches posted
    by the sync loop, answers that arrive, fail or never come. */
module EventQueue {
  import opened Basics
  import opened LocalCache
  import opened SyncEngine

  /** One POST: where in the sequence of all queued events its batch starts. */
  datatype Post = Post(at: nat, batch: seq<Event>)

  /** The table, the batch in flight, and the history: all events ever queued, those the
      backend accepted, and every POST made. */
  datatype Queue = Queue(events: map<Id, Event>, lastId: Id, inFlight: Option<seq<Id>>,
                         queued: seq<Event>, accepted: seq<Event>, posts: seq<Post>)

  const EMPTY := Queue(map[], 0, None, [], [], [])

  datatype Step =
    | Enqueue(e: Event)
    | Send(limit: nat)                       // lists a batch and posts it
    | Answered(status: Option<nat>)          // None: the request raised, delivered or not
    | Crash                                  // the process dies; only the table survives

  function EventsAt(events: map<Id, Event>, ids: seq<Id>): seq<Event>
    requires forall i | 0 <= i < |ids| :: ids[i] in events
  {
    seq(|ids|, i requires 0 <= i < |ids| => events[ids[i]])
  }

  ghost predicate Consistent(q: Queue) {
    && (forall i | i in q.events :: i <= q.lastId)
    && (q.inFlight.Some? ==> q.inFlight.value <= Ascending(q.events.Keys))
  }

  lemma BatchIsListed(events: map<Id, Event>, ids: seq<Id>)
    requires ids <= Ascending(events.Keys)
    ensures forall i | 0 <= i < |ids| :: ids[i] in events
    ensures EventsAt(events, ids) == Pending(events)[..|ids|]
  {
    forall i | 0 <= i < |ids| ensures ids[i] in events {
      assert ids[i] == Ascending(events.Keys)[i];
      AscendingMember(events.Keys, i);
    }
  }

  /** The batch in flight leaves the table. */
  function Accept(q: Queue): Queue
    requires Consistent(q) && q.inFlight.Some?
  {
    BatchIsListed(q.events, q.inFlight.value);
    Queue(q.events - Elements(q.inFlight.value), q.lastId, None, q.queued,
          q.accepted + EventsAt(q.events, q.inFlight.value), q.posts)
  }

  function Next(q: Queue, s: Step): Queue
    requires Consistent(q)
  {
    match s
    case Enqueue(e) =>
      if q.lastId == MAX_ID then q
      else q.(events := q.events[q.lastId + 1 := e], lastId := q.lastId + 1, queued := q.queued + [e])
    case Send(limit) =>
      var ids := Batch(q.events, limit);
      BatchIsListed(q.events, ids);
      if q.inFlight.Some? || ids == [] then q
      else q.(inFlight := Some(ids), posts := q.posts + [Post(|q.accepted|, EventsAt(q.events, ids))])
    case Answered(status) =>
      if q.inFlight.None? then q
      else if status.None? || status.value >= 400 then q.(inFlight := None)
      else Accept(q)
    case Crash => q.(inFlight := None)
  }

  lemma PendingAppend(events: map<Id, Event>, n: Id, e: Event)
    requires forall i | i in events :: i < n
    ensures Ascending(events[n := e].Keys) == Ascending(events.Keys) + [n]
    ensures Pending(events[n := e]) == Pending(events) + [e]
  {
    AscendingAppend(events.Keys, n);
    assert events[n := e].Keys == events.Keys + {n};
    PendingGrows(events, n, e, Ascending(events.Keys));
  }

  lemma PendingGrows(events: map<Id, Event>, n: Id, e: Event, ids: seq<Id>)
    requires n !in events && ids == Ascending(events.Keys)
    requires Ascending(events[n := e].Keys) == ids + [n]
    ensures Pending(events[n := e]) == Pending(events) + [e]
  {
    forall i | 0 <= i < |ids| ensures ids[i] in events && ids[i] != n {
      AscendingMember(events.Keys, i);
    }
  }

  lemma PendingDrop(events: map<Id, Event>, ids: seq<Id>)
    requires ids <= Ascending(events.Keys)
    ensures Pending(events - Elements(ids)) == Pending(events)[|ids|..]
  {
    var all := Ascending(events.Keys);
    assert ids == all[..|ids|];
    AscendingDropPrefix(events.Keys, |ids|);
    assert (events - Elements(ids)).Keys == events.Keys - Elements(ids);
    forall i | |ids| <= i < |all| ensures all[i] in events - Elements(ids) {
      AscendingMember(events.Keys - Elements(ids), i - |ids|);
    }
  }

  /** Every POST is a contiguous stretch of the history that starts no later than the first
      unaccepted event. */
  ghost predicate Stretches(posts: seq<Post>, queued: seq<Event>, accepted: nat) {
    forall p | p in posts :: p.at <= accepted && p.at + |p.batch| <= |queued|
                             && p.batch == queued[p.at..p.at + |p.batch|]
  }

  ghost predicate AllCovered(posts: seq<Post>, accepted: nat) {
    forall i | 0 <= i < accepted :: Covered(posts, i)
  }

  /** The batch in flight is what the last POST sent: the head of the queue. */
  ghost predicate HeadInFlight(q: Queue) {
    q.inFlight.Some? ==>
      (q.posts != []
       && |q.inFlight.value| <= |q.events|
       && q.posts[|q.posts| - 1] == Post(|q.accepted|, Pending(q.events)[..|q.inFlight.value|]))
  }

  /** Nothing lost or reordered: accepted events, then pending ones, are all queued events;
      and every accepted event was part of some POST. */
  ghost predicate InOrder(q: Queue) {
    && Consistent(q)
    && q.accepted + Pending(q.events) == q.queued
    && Stretches(q.posts, q.queued, |q.accepted|)
    && AllCovered(q.posts, |q.accepted|)
    && HeadInFlight(q)
  }

  ghost predicate Covered(posts: seq<Post>, i: nat) {
    exists k :: 0 <= k < |posts| && posts[k].at <= i < posts[k].at + |posts[k].batch|
  }

  lemma CoveredStays(posts: seq<Post>, p: Post, i: nat)
    requires Covered(posts, i)
    ensures Covered(posts + [p], i)
  {
    var k :| 0 <= k < |posts| && posts[k].at <= i < posts[k].at + |posts[k].batch|;
    assert (posts + [p])[k] == posts[k];
  }

  lemma LongerHistory(posts: seq<Post>, queued: seq<Event>, accepted: nat, e: Event)
    requires Stretches(posts, queued, accepted)
    ensures Stretches(posts, queued + [e], accepted)
  {
  }

  lemma PrefixStays(s: seq<Event>, e: Event, n: nat)
    requires n <= |s|
    ensures (s + [e])[..n] == s[..n]
  {
  }

  lemma HeadStays(q: Queue, e: Event)
    requires Consistent(q) && q.lastId < MAX_ID && HeadInFlight(q)
    requires Pending(q.events[q.lastId + 1 := e]) == Pending(q.events) + [e]
    ensures HeadInFlight(Next(q, Enqueue(e)))
  {
    if q.inFlight.Some? {
      PrefixStays(Pending(q.events), e, |q.inFlight.value|);
    }
  }

  lemma EnqueueStays(q: Queue, e: Event)
    requires InOrder(q) && q.lastId < MAX_ID
    ensures InOrder(Next(q, Enqueue(e)))
  {
    PendingAppend(q.events, q.lastId + 1, e);
    LongerHistory(q.posts, q.queued, |q.accepted|, e);
    HeadStays(q, e);
    assert q.accepted + (Pending(q.events) + [e]) == (q.accepted + Pending(q.events)) + [e];
  }

  lemma BatchIsTheHead(events: map<Id, Event>, limit: nat)
    ensures Batch(events, limit) <= Ascending(events.Keys)
    ensures |Batch(events, limit)| == Min(limit, |Pending(events)|)
  {
    assert |events.Keys| == |events|;
  }

  /** One POST of the head of the queue, unless there is nothing to send or a batch in flight. */
  lemma SendPosts(q: Queue, limit: nat)
    requires Consistent(q)
    ensures
      var (q', n) := (Next(q, Send(limit)), Min(limit, |Pending(q.events)|));
      if q.inFlight.Some? || n == 0 then q' == q
      else
        var ids := Batch(q.events, limit);
        && q' == q.(inFlight := Some(ids), posts := q.posts + [Post(|q.accepted|, Pending(q.events)[..n])])
        && |ids| == n && ids <= Ascending(q.events.Keys)
  {
    BatchIsTheHead(q.events, limit);
    BatchIsListed(q.events, Batch(q.events, limit));
  }

  lemma PostStretches(q: Queue, n: nat)
    requires InOrder(q) && n <= |Pending(q.events)|
    ensures
      var posts := q.posts + [Post(|q.accepted|, Pending(q.events)[..n])];
      Stretches(posts, q.queued, |q.accepted|) && AllCovered(posts, |q.accepted|)
  {
    var post := Post(|q.accepted|, Pending(q.events)[..n]);
    forall i | 0 <= i < |q.accepted| ensures Covered(q.posts + [post], i) {
      CoveredStays(q.posts, post, i);
    }
    assert post.batch == q.queued[post.at..post.at + |post.batch|];
  }

  /** A POST always sends the head of the queue: what an unanswered POST sent is only ever
      sent again from the same position. */
  lemma SendStays(q: Queue, limit: nat)
    requires InOrder(q)
    ensures InOrder(Next(q, Send(limit)))
    ensures
      var q' := Next(q, Send(limit));
      var n := Min(limit, |Pending(q.events)|);
      if q.inFlight.Some? || n == 0 then q' == q
      else q'.posts == q.posts + [Post(|q.accepted|, Pending(q.events)[..n])]
  {
    SendPosts(q, limit);
    PostStretches(q, Min(limit, |Pending(q.events)|));
  }

  /** The head of the pending queue moves to the accepted events. */
  lemma AcceptMovesTheHead(q: Queue)
    requires Consistent(q) && q.inFlight.Some?
    ensures
      var n := |q.inFlight.value|;
      && n <= |q.events| && Consistent(Accept(q))
      && Accept(q).accepted == q.accepted + Pending(q.events)[..n]
      && Pending(Accept(q).events) == Pending(q.events)[n..]
  {
    BatchIsListed(q.events, q.inFlight.value);
    PendingDrop(q.events, q.inFlight.value);
  }

  lemma BatchIsCovered(posts: seq<Post>, accepted: nat, more: nat)
    requires AllCovered(posts, accepted) && posts != []
    requires posts[|posts| - 1].at == accepted && |posts[|posts| - 1].batch| == more
    ensures AllCovered(posts, accepted + more)
  {
    forall i | 0 <= i < accepted + more ensures Covered(posts, i) {
      if i >= accepted {
        var last := |posts| - 1;
        assert posts[last].at <= i < posts[last].at + |posts[last].batch|;
      }
    }
  }

  lemma StretchesStay(posts: seq<Post>, queued: seq<Event>, accepted: nat, more: nat)
    requires Stretches(posts, queued, accepted)
    ensures Stretches(posts, queued, accepted + more)
  {
  }

  lemma AcceptCovers(q: Queue)
    requires InOrder(q) && q.inFlight.Some?
    ensures Stretches(q.posts, q.queued, |Accept(q).accepted|) && AllCovered(q.posts, |Accept(q).accepted|)
  {
    AcceptMovesTheHead(q);
    BatchIsCovered(q.posts, |q.accepted|, |q.inFlight.value|);
    StretchesStay(q.posts, q.queued, |q.accepted|, |q.inFlight.value|);
  }

  lemma MoveHead(accepted: seq<Event>, pending: seq<Event>, n: nat)
    requires n <= |pending|
    ensures (accepted + pending[..n]) + pending[n..] == accepted + pending
  {
  }

  lemma AcceptStays(q: Queue)
    requires InOrder(q) && q.inFlight.Some?
    ensures InOrder(Accept(q))
  {
    AcceptMovesTheHead(q);
    AcceptCovers(q);
    MoveHead(q.accepted, Pending(q.events), |q.inFlight.value|);
  }

  lemma StepStays(q: Queue, s: Step)
    requires InOrder(q)
    ensures InOrder(Next(q, s))
  {
    match s
    case Enqueue(e) => if q.lastId < MAX_ID { EnqueueStays(q, e); }
    case Send(limit) => SendStays(q, limit);
    case Answered(status) =>
      if q.inFlight.Some? && status.Some? && status.value < 400 { AcceptStays(q); }
    case Crash =>
  }

  ghost predicate Reaches(q: Queue, steps: seq<Step>, q': Queue)
    decreases |steps|
  {
    if steps == [] then q == q' else Consistent(q) && Reaches(Next(q, steps[0]), steps[1..], q')
  }

  lemma {:induction false} RunStays(q: Queue, steps: seq<Step>, q': Queue)
    requires InOrder(q) && Reaches(q, steps, q')
    ensures InOrder(q')
    decreases |steps|
  {
    if steps != [] {
      StepStays(q, steps[0]);
      RunStays(Next(q, steps[0]), steps[1..], q');
    }
  }

  /** From an empty queue, for every interleaving of queueing, posting, answers and crashes:
      accepted batches followed by the pending queue are all queued events in order, and
      delivery is at least once. */
  lemma NothingLostNothingReordered(steps: seq<Step>, q: Queue)
    requires Reaches(EMPTY, steps, q)
    ensures InOrder(q) && q.accepted + Pending(q.events) == q.queued
  {
    assert Pending(map[]) == [];
    RunStays(EMPTY, steps, q);
  }

  /** A flush takes the oldest events, a batch of them, off the queue exactly when they were
      posted and answered with a status below 400, and reports how many or why not. */
  lemma FlushTakesTheHead(events: map<Id, Event>, limit: nat, status: Option<nat>)
    ensures
      var n := Min(limit, |Pending(events)|);
      var (left, r) := (AfterFlush(events, limit, status), PushReport(events, limit, status));
      if n == 0 then left == events && r == Push(0, None)
      else match status
           case None => left == events && r == Push(0, Some(Network))
           case Some(code) =>
             if code >= 400 then left == events && r == Push(0, Some(Http(code)))
             else Pending(left) == Pending(events)[n..] && r == Push(n, None)
  {
    var batch := Batch(events, limit);
    BatchIsTheHead(events, limit);
    if batch == [] {
      FlushNothing(events);
    } else if status.Some? && status.value < 400 {
      PendingDrop(events, batch);
    }
  }

  /** `flush_events` on its own is a Send and its answer. */
  lemma FlushIsSendThenAnswer(q: Queue, limit: nat, status: Option<nat>)
    requires InOrder(q) && q.inFlight.None?
    ensures
      var sent := Next(q, Send(limit));
      InOrder(sent) && Next(sent, Answered(status)).events == AfterFlush(q.events, limit, status)
  {
    SendStays(q, limit);
    AnsweredFlush(q, limit, status);
  }

  lemma AnsweredFlush(q: Queue, limit: nat, status: Option<nat>)
    requires Consistent(q) && q.inFlight.None? && Consistent(Next(q, Send(limit)))
    ensures Next(Next(q, Send(limit)), Answered(status)).events == AfterFlush(q.events, limit, status)
  {
    var (ids, sent) := (Batch(q.events, limit), Next(q, Send(limit)));
    if ids == [] {
      assert sent == q;
      FlushNothing(q.events);
    } else {
      assert sent.inFlight == Some(ids) && sent.events == q.events;
    }
  }

  lemma FlushNothing(events: map<Id, Event>)
    ensures events - Elements([]) == events
  {
  }
}
