/** The watchdog loop: an escalation from failed polls to a session restart to a reboot,
    with every threshold symbolic. */
module Watchdog {
  import opened Basics

  datatype Tuning = Tuning(failThreshold: int, recoveringProbes: int, rebootCooldown: int, bootGrace: int,
                           pageStale: int)

  /** What the critical checks saw; `pageIdle` is None when unknown. */
  datatype Checks = Checks(sway: bool, chromium: bool, health: bool, pageIdle: Option<int>)

  /** What becomes of the persisted stamp when a reboot is recorded. */
  datatype StampWrite = Written | Untouched | Corrupted

  /** One turn of the loop. `now` is the clock when the cooldown is read, `stampNow` when a
      reboot is recorded, a moment later. */
  datatype Poll = Poll(checks: Checks, uptime: int, configured: bool, now: int, stampNow: int, write: StampWrite)

  datatype Mode = Alive | Degraded | Recovering

  /** The loop's variables, and the stamp that outlives the process. */
  datatype Dog = Dog(mode: Mode, failStreak: int, probesLeft: int, stamp: Option<int>)

  datatype Action = Nothing | RestartGreetd | RebootBlocked | Reboot

  function Fresh(stamp: Option<int>): Dog {
    Dog(Alive, 0, 0, stamp)
  }

  predicate AllPass(t: Tuning, c: Checks) {
    c.sway && c.chromium && c.health && (c.pageIdle.None? || c.pageIdle.value < t.pageStale)
  }

  predicate Fails(t: Tuning, p: Poll) {
    !AllPass(t, p.checks)
  }

  /** A failed poll that may escalate. */
  predicate Eligible(t: Tuning, p: Poll) {
    Fails(t, p) && p.uptime >= t.bootGrace && p.configured
  }

  function RebootAge(stamp: Option<int>, now: int): int {
    if stamp.None? then 1_000_000_000 else if now - stamp.value > 0 then now - stamp.value else 0
  }

  function Recorded(stamp: Option<int>, p: Poll): Option<int> {
    match p.write
    case Written => Some(p.stampNow)
    case Untouched => stamp
    case Corrupted => None
  }

  function Step(t: Tuning, d: Dog, p: Poll): (Dog, Action) {
    if !Fails(t, p) then (Dog(Alive, 0, 0, d.stamp), Nothing)
    else
      var d := d.(failStreak := d.failStreak + 1);
      if !Eligible(t, p) then (d, Nothing)
      else if d.mode == Alive && d.failStreak >= t.failThreshold then
        (Dog(Recovering, 0, t.recoveringProbes, d.stamp), RestartGreetd)
      else if d.mode == Recovering then
        var d := d.(probesLeft := d.probesLeft - 1);
        if d.probesLeft > 0 then (d, Nothing)
        else if t.rebootCooldown - RebootAge(d.stamp, p.now) > 0 then
          (d.(mode := Alive, probesLeft := 0), RebootBlocked)
        else (d.(stamp := Recorded(d.stamp, p)), Reboot)
      else (d, Nothing)
  }

  class WatchdogLoop {
    const t: Tuning
    var mode: Mode
    var failStreak: int
    var recoveringProbesLeft: int
    var stamp: Option<int>

    constructor (t: Tuning, stamp: Option<int>)
      ensures this.t == t && Now() == Fresh(stamp)
    {
      this.t := t;
      mode, failStreak, recoveringProbesLeft, this.stamp := Alive, 0, 0, stamp;
    }

    function Now(): Dog
      reads this
    {
      Dog(mode, failStreak, recoveringProbesLeft, stamp)
    }

    /** The body of the endless loop. */
    method Turn(p: Poll) returns (action: Action)
      modifies this
      ensures (Now(), action) == Step(t, old(Now()), p)
    {
      action := Nothing;
      if AllPass(t, p.checks) {
        mode := Alive;
        failStreak := 0;
        recoveringProbesLeft := 0;
        return;
      }
      failStreak := failStreak + 1;
      if p.uptime < t.bootGrace || !p.configured {
        return;
      }
      if mode == Alive && failStreak >= t.failThreshold {
        mode := Degraded;
        action := RestartGreetd;
        mode := Recovering;
        recoveringProbesLeft := t.recoveringProbes;
        failStreak := 0;
      } else if mode == Recovering {
        recoveringProbesLeft := recoveringProbesLeft - 1;
        if recoveringProbesLeft <= 0 {
          var cooldownRemaining := t.rebootCooldown - RebootAge(stamp, p.now);
          if cooldownRemaining > 0 {
            action := RebootBlocked;
            mode := Alive;
            recoveringProbesLeft := 0;
          } else {
            stamp := Recorded(stamp, p);
            action := Reboot;
          }
        }
      }
    }
  }

  // ---- One process: what a restart and a reboot have behind them ----

  function Run(t: Tuning, d: Dog, polls: seq<Poll>): Dog {
    if polls == [] then d else Step(t, Run(t, d, polls[..|polls| - 1]), polls[|polls| - 1]).0
  }

  /** What the loop did at poll i. */
  function At(t: Tuning, d: Dog, polls: seq<Poll>, i: nat): Action
    requires i < |polls|
  {
    Step(t, Run(t, d, polls[..i]), polls[i]).1
  }

  ghost predicate AllFail(t: Tuning, polls: seq<Poll>, lo: int, hi: int)
    requires 0 <= lo && hi <= |polls|
  {
    forall i | lo <= i < hi :: Fails(t, polls[i])
  }

  function EligibleIn(t: Tuning, polls: seq<Poll>, lo: nat, hi: nat): nat
    requires lo <= hi <= |polls|
  {
    if lo == hi then 0 else EligibleIn(t, polls, lo, hi - 1) + if Eligible(t, polls[hi - 1]) then 1 else 0
  }

  lemma RunStep(t: Tuning, d: Dog, polls: seq<Poll>, n: nat)
    requires n < |polls|
    ensures Run(t, d, polls[..n + 1]) == Step(t, Run(t, d, polls[..n]), polls[n]).0
  {
    assert polls[..n + 1][..n] == polls[..n];
  }

  /** The streak counts failed polls since the last pass or restart. */
  lemma {:induction false} StreakIsHistory(t: Tuning, stamp: Option<int>, polls: seq<Poll>, n: nat)
    requires n <= |polls|
    ensures
      var d := Run(t, Fresh(stamp), polls[..n]);
      d.mode != Degraded && 0 <= d.failStreak <= n && AllFail(t, polls, n - d.failStreak, n)
  {
    if n > 0 {
      StreakIsHistory(t, stamp, polls, n - 1);
      RunStep(t, Fresh(stamp), polls, n - 1);
    }
  }

  /** A restart at poll r ends at least `failThreshold` consecutive failed polls. */
  ghost predicate EarnedRestart(t: Tuning, stamp: Option<int>, polls: seq<Poll>, r: nat)
    requires r < |polls|
  {
    && At(t, Fresh(stamp), polls, r) == RestartGreetd && Fails(t, polls[r])
    && t.failThreshold <= r + 1
    && (t.failThreshold >= 0 ==> AllFail(t, polls, r + 1 - t.failThreshold, r + 1))
  }

  lemma RestartsAreEarned(t: Tuning, stamp: Option<int>, polls: seq<Poll>, r: nat)
    requires r < |polls| && At(t, Fresh(stamp), polls, r) == RestartGreetd
    ensures EarnedRestart(t, stamp, polls, r)
  {
    StreakIsHistory(t, stamp, polls, r);
  }

  /** Between restart r and poll n nothing passed, and every eligible failure used a probe. */
  ghost predicate Probing(t: Tuning, stamp: Option<int>, polls: seq<Poll>, r: nat, n: nat)
    requires r < n <= |polls|
  {
    && EarnedRestart(t, stamp, polls, r) && AllFail(t, polls, r + 1, n)
    && EligibleIn(t, polls, r + 1, n) == t.recoveringProbes - Run(t, Fresh(stamp), polls[..n]).probesLeft
  }

  lemma {:induction false} RecoveringHasARestart(t: Tuning, stamp: Option<int>, polls: seq<Poll>, n: nat)
    returns (r: nat)
    requires n <= |polls| && Run(t, Fresh(stamp), polls[..n]).mode == Recovering
    ensures r < n && Probing(t, stamp, polls, r, n)
  {
    var before := Run(t, Fresh(stamp), polls[..n - 1]);
    RunStep(t, Fresh(stamp), polls, n - 1);
    if before.mode == Recovering {
      r := RecoveringHasARestart(t, stamp, polls, n - 1);
    } else {
      r := n - 1;
      RestartsAreEarned(t, stamp, polls, r);
    }
  }

  /** Every reboot is the end of the ladder: at least `failThreshold` consecutive failures
      ending in a session restart, then no passing poll and at least `recoveringProbes`
      failures outside boot grace on a configured box, the last of them at the reboot. */
  lemma RebootsAreEarned(t: Tuning, stamp: Option<int>, polls: seq<Poll>, n: nat) returns (r: nat)
    requires n < |polls| && At(t, Fresh(stamp), polls, n) == Reboot
    ensures r < n && EarnedRestart(t, stamp, polls, r)
    ensures AllFail(t, polls, r + 1, n + 1) && Eligible(t, polls[n])
    ensures EligibleIn(t, polls, r + 1, n + 1) >= t.recoveringProbes
  {
    r := RecoveringHasARestart(t, stamp, polls, n);
  }

  // ---- The ladder is climbed ----

  /** Any of the four checks fails. */
  predicate Bad(t: Tuning, p: Poll) {
    !p.checks.sway || !p.checks.chromium || !p.checks.health
    || (p.checks.pageIdle.Some? && p.checks.pageIdle.value >= t.pageStale)
  }

  /** And the box is configured and past its boot grace. */
  predicate Acting(t: Tuning, p: Poll) {
    Bad(t, p) && p.configured && p.uptime >= t.bootGrace
  }

  predicate AllBad(t: Tuning, polls: seq<Poll>) {
    forall i | 0 <= i < |polls| :: Bad(t, polls[i])
  }

  /** Every turn, from every state: a good poll leaves nothing behind; a bad one is counted, and
      if the box may act it restarts the session, uses up a probe, reboots, or is held back. */
  lemma TurnExactly(t: Tuning, d: Dog, p: Poll)
    ensures
      var (d', action) := Step(t, d, p);
      && (!Bad(t, p) ==> d' == Dog(Alive, 0, 0, d.stamp) && action == Nothing)
      && (Bad(t, p) && !Acting(t, p) ==> d' == d.(failStreak := d.failStreak + 1) && action == Nothing)
      && (action == RestartGreetd <==> Acting(t, p) && d.mode == Alive && d.failStreak + 1 >= t.failThreshold)
      && (action == RestartGreetd ==> d' == Dog(Recovering, 0, t.recoveringProbes, d.stamp))
      && (action == Reboot || action == RebootBlocked <==> Acting(t, p) && d.mode == Recovering && d.probesLeft <= 1)
      && (action == Reboot ==>
            d' == Dog(Recovering, d.failStreak + 1, d.probesLeft - 1,
                      if p.write == Written then Some(p.stampNow) else if p.write == Untouched then d.stamp else None))
      && (action == RebootBlocked ==> d' == Dog(Alive, d.failStreak + 1, 0, d.stamp))
      && (Acting(t, p) && action == Nothing ==>
            d' == Dog(d.mode, d.failStreak + 1, if d.mode == Recovering then d.probesLeft - 1 else d.probesLeft,
                      d.stamp))
  {
  }

  /** A reboot that is due happens exactly if the last one is unknown or a cooldown ago. */
  lemma RebootsWhenDue(t: Tuning, d: Dog, p: Poll)
    requires Acting(t, p) && d.mode == Recovering && d.probesLeft <= 1
    ensures Step(t, d, p).1 == Reboot <==>
            if d.stamp.None? then t.rebootCooldown <= 1_000_000_000
            else t.rebootCooldown <= 0 || d.stamp.value + t.rebootCooldown <= p.now
  {
  }

  lemma {:induction false} BadPollsAreCounted(t: Tuning, stamp: Option<int>, polls: seq<Poll>)
    requires AllBad(t, polls) && |polls| < t.failThreshold
    ensures Run(t, Fresh(stamp), polls) == Dog(Alive, |polls|, 0, stamp)
    ensures forall i | 0 <= i < |polls| :: At(t, Fresh(stamp), polls, i) == Nothing
  {
    if polls != [] {
      var before := polls[..|polls| - 1];
      BadPollsAreCounted(t, stamp, before);
      forall i | 0 <= i < |polls| ensures At(t, Fresh(stamp), polls, i) == Nothing {
        if i < |before| {
          assert before[..i] == polls[..i];
          assert At(t, Fresh(stamp), before, i) == Nothing;
        }
      }
    }
  }

  /** From a fresh process, `failThreshold` bad polls in a row, the last of them when the box may
      act, restart the session exactly at the last one. */
  lemma FailuresRestart(t: Tuning, stamp: Option<int>, polls: seq<Poll>)
    requires |polls| >= 1 && |polls| == t.failThreshold && AllBad(t, polls) && Acting(t, polls[|polls| - 1])
    ensures forall i | 0 <= i < |polls| - 1 :: At(t, Fresh(stamp), polls, i) == Nothing
    ensures At(t, Fresh(stamp), polls, |polls| - 1) == RestartGreetd
    ensures Run(t, Fresh(stamp), polls) == Dog(Recovering, 0, t.recoveringProbes, stamp)
  {
    var before := polls[..|polls| - 1];
    BadPollsAreCounted(t, stamp, before);
    forall i | 0 <= i < |before| ensures At(t, Fresh(stamp), polls, i) == Nothing {
      assert before[..i] == polls[..i];
      assert At(t, Fresh(stamp), before, i) == Nothing;
    }
  }

  lemma {:induction false} ProbesAreUsed(t: Tuning, d: Dog, polls: seq<Poll>)
    requires d.mode == Recovering && |polls| < d.probesLeft
    requires forall i | 0 <= i < |polls| :: Acting(t, polls[i])
    ensures Run(t, d, polls) == Dog(Recovering, d.failStreak + |polls|, d.probesLeft - |polls|, d.stamp)
  {
    if polls != [] {
      ProbesAreUsed(t, d, polls[..|polls| - 1]);
    }
  }

  /** After the restart, `recoveringProbes` more such polls end in a reboot, if the last one is
      unknown or a cooldown ago, and in a blocked reboot otherwise. */
  lemma ProbesReboot(t: Tuning, d: Dog, polls: seq<Poll>)
    requires d.mode == Recovering && d.probesLeft == t.recoveringProbes == |polls| && |polls| >= 1
    requires forall i | 0 <= i < |polls| :: Acting(t, polls[i])
    ensures
      var (last, action) := (polls[|polls| - 1], At(t, d, polls, |polls| - 1));
      var due := if d.stamp.None? then t.rebootCooldown <= 1_000_000_000
                 else t.rebootCooldown <= 0 || d.stamp.value + t.rebootCooldown <= last.now;
      && action == (if due then Reboot else RebootBlocked)
      && (!due ==> Run(t, d, polls).mode == Alive && Run(t, d, polls).probesLeft == 0)
  {
    var before := polls[..|polls| - 1];
    ProbesAreUsed(t, d, before);
    RebootsWhenDue(t, Run(t, d, before), polls[|polls| - 1]);
  }

  lemma {:induction false} RunConcat(t: Tuning, d: Dog, a: seq<Poll>, b: seq<Poll>)
    ensures Run(t, d, a + b) == Run(t, Run(t, d, a), b)
  {
    if b == [] {
      assert a + b == a;
    } else {
      RunConcat(t, d, a, b[..|b| - 1]);
      assert (a + b)[..|a + b| - 1] == a + b[..|b| - 1];
    }
  }

  /** The whole ladder: a fresh process that sees only bad polls, and may act when it counts,
      restarts the session at poll `failThreshold` and at poll `failThreshold + recoveringProbes`
      reboots, or is held back by the cooldown. */
  lemma LadderIsClimbed(t: Tuning, stamp: Option<int>, fails: seq<Poll>, probes: seq<Poll>)
    requires |fails| >= 1 && |fails| == t.failThreshold && AllBad(t, fails) && Acting(t, fails[|fails| - 1])
    requires |probes| >= 1 && |probes| == t.recoveringProbes && forall i | 0 <= i < |probes| :: Acting(t, probes[i])
    ensures
      var (all, now) := (fails + probes, probes[|probes| - 1].now);
      var due := if stamp.None? then t.rebootCooldown <= 1_000_000_000
                 else t.rebootCooldown <= 0 || stamp.value + t.rebootCooldown <= now;
      && At(t, Fresh(stamp), all, |fails| - 1) == RestartGreetd
      && At(t, Fresh(stamp), all, |all| - 1) == if due then Reboot else RebootBlocked
  {
    var all := fails + probes;
    FailuresRestart(t, stamp, fails);
    ProbesReboot(t, Run(t, Fresh(stamp), fails), probes);
    RunConcat(t, Fresh(stamp), fails, probes[..|probes| - 1]);
    assert all[..|fails| - 1] == fails[..|fails| - 1];
    assert all[..|all| - 1] == fails + probes[..|probes| - 1];
  }

  // ---- Restarts keep their distance ----

  /** The latest restart before poll n, if any. */
  function LastRestart(t: Tuning, d: Dog, polls: seq<Poll>, n: nat): Option<nat>
    requires n <= |polls|
  {
    if n == 0 then None
    else if At(t, d, polls, n - 1) == RestartGreetd then Some(n - 1)
    else LastRestart(t, d, polls, n - 1)
  }

  /** `since` polls after the latest restart: while probing, a probe was used at most once a
      poll; back to alive after a pass the streak lost a poll, and through the cooldown
      path all probes were used first. */
  ghost predicate Spent(t: Tuning, d: Dog, since: nat) {
    && d.failStreak <= since
    && (d.mode == Recovering ==> d.probesLeft >= t.recoveringProbes - since)
    && (d.mode == Alive ==> d.failStreak < since || (since >= 1 && since >= t.recoveringProbes))
  }

  lemma SpentStep(t: Tuning, d: Dog, p: Poll, since: nat)
    requires Spent(t, d, since) && Step(t, d, p).1 != RestartGreetd
    ensures Spent(t, Step(t, d, p).0, since + 1)
  {
  }

  lemma {:induction false} SpentSinceRestart(t: Tuning, d: Dog, polls: seq<Poll>, n: nat)
    requires n <= |polls| && LastRestart(t, d, polls, n).Some?
    ensures
      var r := LastRestart(t, d, polls, n).value;
      r < n && Spent(t, Run(t, d, polls[..n]), n - 1 - r)
  {
    RunStep(t, d, polls, n - 1);
    if At(t, d, polls, n - 1) != RestartGreetd {
      SpentSinceRestart(t, d, polls, n - 1);
      var since := n - 2 - LastRestart(t, d, polls, n - 1).value;
      SpentStep(t, Run(t, d, polls[..n - 1]), polls[n - 1], since);
    }
  }

  lemma {:induction false} LastRestartIsLatest(t: Tuning, d: Dog, polls: seq<Poll>, n: nat, r: nat)
    requires r < n <= |polls| && At(t, d, polls, r) == RestartGreetd
    ensures LastRestart(t, d, polls, n).Some? && r <= LastRestart(t, d, polls, n).value < n
  {
    if At(t, d, polls, n - 1) != RestartGreetd {
      LastRestartIsLatest(t, d, polls, n - 1, r);
    }
  }

  function Max(a: int, b: int): int { if a < b then b else a }

  /** Any two session restarts of one process are at least this many polls apart, also
      through the cooldown path that keeps the streak. */
  lemma RestartsKeepTheirDistance(t: Tuning, d: Dog, polls: seq<Poll>, r: nat, r': nat)
    requires r < r' < |polls|
    requires At(t, d, polls, r) == RestartGreetd && At(t, d, polls, r') == RestartGreetd
    ensures r' - r >= Min(t.failThreshold + 1, Max(t.failThreshold, t.recoveringProbes + 1))
    ensures r' - r >= Min(t.failThreshold, t.recoveringProbes) + 1
  {
    LastRestartIsLatest(t, d, polls, r', r);
    SpentSinceRestart(t, d, polls, r');
  }

  // ---- Many processes: reboots keep the cooldown ----

  datatype Event = ProcessStart | Turned(p: Poll)

  function Next(t: Tuning, d: Dog, e: Event): Dog {
    match e
    case ProcessStart => Fresh(d.stamp)
    case Turned(p) => Step(t, d, p).0
  }

  function Lives(t: Tuning, d: Dog, events: seq<Event>): Dog {
    if events == [] then d else Next(t, Lives(t, d, events[..|events| - 1]), events[|events| - 1])
  }

  /** The stamps of the reboots recorded over the events, in order. */
  function Reboots(t: Tuning, d: Dog, events: seq<Event>): seq<int> {
    if events == [] then []
    else
      var (before, e) := (events[..|events| - 1], events[|events| - 1]);
      Reboots(t, d, before)
      + if e.Turned? && Step(t, Lives(t, d, before), e.p).1 == Reboot then [e.p.stampNow] else []
  }

  /** A wall clock that never goes back, read in the order the code reads it, and stamp
      writes that succeed. */
  ghost predicate Steady(events: seq<Event>) {
    && (forall i | 0 <= i < |events| && events[i].Turned? ::
          events[i].p.now <= events[i].p.stampNow && events[i].p.write == Written)
    && (forall i, j | 0 <= i < j < |events| && events[i].Turned? && events[j].Turned? ::
          events[i].p.stampNow <= events[j].p.now)
  }

  ghost predicate Spaced(times: seq<int>, gap: int) {
    forall i | 0 < i < |times| :: times[i] - times[i - 1] >= gap
  }

  /** The stamp on disk is that of the latest recorded reboot, which is one of the events. */
  ghost predicate StampedLast(times: seq<int>, stamp: Option<int>, events: seq<Event>) {
    times != [] ==> stamp == Some(times[|times| - 1]) && StampedAt(events, times[|times| - 1])
  }

  ghost predicate StampedAt(events: seq<Event>, time: int) {
    exists i :: 0 <= i < |events| && events[i].Turned? && events[i].p.stampNow == time
  }

  lemma StampedBefore(events: seq<Event>, time: int)
    requires events != [] && StampedAt(events[..|events| - 1], time)
    ensures StampedAt(events, time)
    ensures Steady(events) && events[|events| - 1].Turned? ==> time <= events[|events| - 1].p.now
  {
    var before := events[..|events| - 1];
    var i :| 0 <= i < |before| && before[i].Turned? && before[i].p.stampNow == time;
    assert events[i] == before[i];
  }

  /** A reboot with a stamp on disk comes a cooldown after it. */
  lemma RebootWaits(t: Tuning, d: Dog, p: Poll)
    requires Step(t, d, p).1 == Reboot && d.stamp.Some? && d.stamp.value <= p.now <= p.stampNow
    ensures p.stampNow - d.stamp.value >= t.rebootCooldown
  {
  }

  lemma SpacedAppend(times: seq<int>, gap: int, time: int)
    requires Spaced(times, gap) && (times != [] ==> time - times[|times| - 1] >= gap)
    ensures Spaced(times + [time], gap)
  {
  }

  lemma SteadyBefore(events: seq<Event>)
    requires events != [] && Steady(events)
    ensures Steady(events[..|events| - 1])
  {
  }

  /** Recorded reboots are a cooldown apart, however often the process or the box restarts. */
  lemma {:induction false} RebootsAreSpaced(t: Tuning, d: Dog, events: seq<Event>)
    requires Steady(events)
    ensures Spaced(Reboots(t, d, events), t.rebootCooldown)
    ensures StampedLast(Reboots(t, d, events), Lives(t, d, events).stamp, events)
  {
    if events != [] {
      var (before, e) := (events[..|events| - 1], events[|events| - 1]);
      var times := Reboots(t, d, before);
      SteadyBefore(events);
      RebootsAreSpaced(t, d, before);
      if times != [] {
        StampedBefore(events, times[|times| - 1]);
      }
      if e.Turned? && Step(t, Lives(t, d, before), e.p).1 == Reboot {
        if times != [] {
          RebootWaits(t, Lives(t, d, before), e.p);
        }
        SpacedAppend(times, t.rebootCooldown, e.p.stampNow);
        assert StampedAt(events, e.p.stampNow);
      }
    }
  }

  lemma {:induction false} SpacedSpan(times: seq<int>, gap: int, i: nat, j: nat)
    requires Spaced(times, gap) && i <= j < |times|
    ensures times[j] - times[i] >= gap * (j - i)
    decreases j - i
  {
    if i < j {
      SpacedSpan(times, gap, i, j - 1);
      assert gap * (j - i) == gap * (j - 1 - i) + gap;
    }
  }

  /** A span of T seconds holds at most 1 + T / cooldown recorded reboots. */
  lemma RebootRateIsBounded(t: Tuning, d: Dog, events: seq<Event>, span: nat, i: nat, j: nat)
    requires Steady(events) && t.rebootCooldown > 0
    requires i <= j < |Reboots(t, d, events)| && Reboots(t, d, events)[j] - Reboots(t, d, events)[i] <= span
    ensures j - i + 1 <= 1 + span / t.rebootCooldown
  {
    RebootsAreSpaced(t, d, events);
    SpacedSpan(Reboots(t, d, events), t.rebootCooldown, i, j);
    AtMostQuotient(t.rebootCooldown, j - i, span);
  }

  lemma AtMostQuotient(c: int, k: nat, span: nat)
    requires c > 0 && c * k <= span
    ensures k <= span / c
  {
    var q := span / c;
    assert span < c * (q + 1);
    CancelFactor(c, k, q + 1);
  }

  lemma CancelFactor(c: int, a: int, b: int)
    requires c > 0 && c * a < c * b
    ensures a < b
  {
  }

  /** Each of the polls reboots. */
  predicate RebootsThroughout(t: Tuning, d: Dog, polls: seq<Poll>) {
    polls == []
    || (RebootsThroughout(t, d, polls[..|polls| - 1])
        && Step(t, Run(t, d, polls[..|polls| - 1]), polls[|polls| - 1]).1 == Reboot)
  }

  /** The stamp once a reboot has been recorded, or not, at each of the polls. */
  function StampAfter(stamp: Option<int>, polls: seq<Poll>): Option<int> {
    if polls == [] then stamp else Recorded(StampAfter(stamp, polls[..|polls| - 1]), polls[|polls| - 1])
  }

  /** At each of the polls the stamp then on disk is a cooldown old. */
  predicate CooldownOver(t: Tuning, stamp: Option<int>, polls: seq<Poll>) {
    polls == []
    || (CooldownOver(t, stamp, polls[..|polls| - 1])
        && t.rebootCooldown <= RebootAge(StampAfter(stamp, polls[..|polls| - 1]), polls[|polls| - 1].now))
  }

  /** While a box stays down whose reboots do not take effect, every poll reboots again
      exactly as long as the stamp on disk, whatever became of it, is a cooldown old. */
  lemma {:induction false} RebootsThroughoutExactly(t: Tuning, d: Dog, polls: seq<Poll>)
    requires d.mode == Recovering && d.probesLeft <= 1
    requires forall i | 0 <= i < |polls| :: Eligible(t, polls[i])
    ensures RebootsThroughout(t, d, polls) <==> CooldownOver(t, d.stamp, polls)
    ensures
      var d' := Run(t, d, polls);
      RebootsThroughout(t, d, polls) ==>
        d'.mode == Recovering && d'.probesLeft <= 1 && d'.stamp == StampAfter(d.stamp, polls)
  {
    if polls != [] {
      RebootsThroughoutExactly(t, d, polls[..|polls| - 1]);
    }
  }

  lemma {:induction false} StampKeptOrLost(stamp: Option<int>, polls: seq<Poll>)
    requires forall i | 0 <= i < |polls| :: polls[i].write != Written
    ensures StampAfter(stamp, polls) == stamp || StampAfter(stamp, polls) == None
  {
    if polls != [] {
      StampKeptOrLost(stamp, polls[..|polls| - 1]);
    }
  }

  lemma {:induction false} OldStampStaysOld(t: Tuning, stamp: Option<int>, polls: seq<Poll>)
    requires t.rebootCooldown <= 1_000_000_000
    requires forall i | 0 <= i < |polls| ::
               polls[i].write != Written && t.rebootCooldown <= RebootAge(stamp, polls[i].now)
    ensures CooldownOver(t, stamp, polls)
  {
    if polls != [] {
      OldStampStaysOld(t, stamp, polls[..|polls| - 1]);
      StampKeptOrLost(stamp, polls[..|polls| - 1]);
    }
  }

  /** So without successful stamp writes, a box whose stamp is missing or a cooldown old
      reboots at every poll: the condition on stamp writes in the bounds above is needed. */
  lemma WithoutAStampItRebootsEveryPoll(t: Tuning, d: Dog, polls: seq<Poll>)
    requires t.rebootCooldown <= 1_000_000_000
    requires d.mode == Recovering && d.probesLeft <= 1
    requires forall i | 0 <= i < |polls| :: Eligible(t, polls[i]) && polls[i].write != Written
    requires forall i | 0 <= i < |polls| :: t.rebootCooldown <= RebootAge(d.stamp, polls[i].now)
    ensures RebootsThroughout(t, d, polls)
  {
    RebootsThroughoutExactly(t, d, polls);
    OldStampStaysOld(t, d.stamp, polls);
  }

  /** Going back to alive through the cooldown keeps the streak: with a threshold no larger
      than the streak, the very next eligible failure restarts the session again. */
  lemma CooldownKeepsTheStreak(t: Tuning, d: Dog, p: Poll, q: Poll)
    requires Step(t, d, p).1 == RebootBlocked && Eligible(t, q)
    ensures Step(t, Step(t, d, p).0, q).1 == RestartGreetd <==> d.failStreak + 2 >= t.failThreshold
  {
  }
}
