/** The incident poller: an active incident stays on screen through failed polls, but only
    for a grace period measured from the reply that announced it. */
module IncidentPolling {
  import opened Basics

  const GRACE := 30.0

  /** What one poll met. `Raises` stands for any exception that leaves `poll_once`; a failure
      is a network error, a status other than 200, or a body that is not JSON. */
  datatype Reply = Raises | NotConfigured | Failure | Incident(payload: string) | NoIncident

  datatype Poll = Poll(reply: Reply, at: real)

  /** The cached state (None is inactive) and the time of the last active reply. */
  datatype Cache = Cache(shown: Option<string>, lastActiveAt: real)

  const START := Cache(None, 0.0)

  function Next(c: Cache, p: Poll): Cache {
    match p.reply
    case Raises => c
    case NotConfigured => c.(shown := None)
    case NoIncident => c.(shown := None)
    case Incident(payload) => Cache(Some(payload), p.at)
    case Failure => if c.shown.Some? && p.at - c.lastActiveAt < GRACE then c else c.(shown := None)
  }

  class IncidentPoller {
    var state: Option<string>
    var lastActiveAt: real

    constructor ()
      ensures Now() == START
    {
      state, lastActiveAt := None, 0.0;
    }

    function Now(): Cache
      reads this
    {
      Cache(state, lastActiveAt)
    }

    method FailClosed(now: real)
      modifies this
      ensures Now() == Next(old(Now()), Poll(Failure, now))
    {
      var wasActive := state.Some?;
      if wasActive && now - lastActiveAt < GRACE {
        return;
      }
      state := None;
    }

    method PollOnce(p: Poll)
      modifies this
      ensures Now() == Next(old(Now()), p)
    {
      match p.reply
      case Raises =>
      case NotConfigured => state := None;
      case Failure => FailClosed(p.at);
      case NoIncident => state := None;
      case Incident(payload) =>
        lastActiveAt := p.at;
        state := Some(payload);
    }
  }

  function After(polls: seq<Poll>): Cache {
    if polls == [] then START else Next(After(polls[..|polls| - 1]), polls[|polls| - 1])
  }

  ghost predicate Monotonic(polls: seq<Poll>) {
    forall i, j | 0 <= i < j < |polls| :: polls[i].at <= polls[j].at
  }

  /** Poll i announced an incident, and everything after it only failed or raised, each
      failure within the grace period of the announcement. */
  ghost predicate Holds(polls: seq<Poll>, i: int) {
    && 0 <= i < |polls| && polls[i].reply.Incident?
    && forall j | i < j < |polls| ::
         polls[j].reply.Raises? || (polls[j].reply.Failure? && polls[j].at - polls[i].at < 30.0)
  }

  /** What is on screen, exactly: the payload of the poll that holds, if one does. */
  lemma {:induction false} ShownExactly(polls: seq<Poll>)
    ensures After(polls).shown.Some? <==> exists i :: Holds(polls, i)
    ensures forall i | Holds(polls, i) :: After(polls) == Cache(Some(polls[i].reply.payload), polls[i].at)
  {
    if polls != [] {
      var before, last := polls[..|polls| - 1], polls[|polls| - 1];
      ShownExactly(before);
      if last.reply.Incident? {
        assert Holds(polls, |polls| - 1);
      } else if i :| Holds(before, i) {
        assert Holds(polls, i) <==> last.reply.Raises? || (last.reply.Failure? && last.at - polls[i].at < 30.0);
      }
      forall i | Holds(polls, i) && i < |polls| - 1 ensures Holds(before, i) {
        assert forall j | i < j < |before| :: before[j] == polls[j];
      }
    }
  }

  /** The last poll that returned, if any did. */
  ghost predicate LastReturning(polls: seq<Poll>, k: int) {
    0 <= k < |polls| && !polls[k].reply.Raises? && forall j | k < j < |polls| :: polls[j].reply.Raises?
  }

  lemma {:induction false} SomeReturned(polls: seq<Poll>, i: int) returns (k: int)
    requires 0 <= i < |polls| && !polls[i].reply.Raises?
    ensures i <= k && LastReturning(polls, k)
  {
    k := |polls| - 1;
    if polls[k].reply.Raises? {
      k := SomeReturned(polls[..k], i);
      assert forall j | k < j < |polls| - 1 :: polls[j] == polls[..|polls| - 1][j];
    }
  }

  /** What is on screen at time t is the payload of the latest announcement, and that reply
      is younger than 30 seconds plus any bound on how long ago a poll last returned. */
  lemma ShownIsLatestAndFresh(polls: seq<Poll>, t: real, gap: real) returns (i: int)
    requires Monotonic(polls) && After(polls).shown.Some?
    requires forall k | LastReturning(polls, k) :: t - polls[k].at <= gap
    ensures 0 <= i < |polls| && polls[i].reply == Incident(After(polls).shown.value)
    ensures forall j | i < j < |polls| :: !polls[j].reply.Incident?
    ensures t - polls[i].at < 30.0 + gap
  {
    ShownExactly(polls);
    i :| Holds(polls, i);
    var last := SomeReturned(polls, i);
    assert last == i || polls[last].reply.Failure?;
  }
}
