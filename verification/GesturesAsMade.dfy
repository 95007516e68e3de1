/** The gestures read off what the fingers did: where a corner is, which lifts are taps, and
    exactly when each gesture launches the overlay. */
module GesturesAsMade {
  import opened Basics
  import opened Gesture

  // ---- Corners ----

  lemma QuotientBelow(x: real, m: real, f: real)
    requires m > 0.0
    ensures x / m < f <==> x < f * m
  {
    var q := x / m;
    assert q * m == x;
    SameSign(f - q, m);
    assert (f - q) * m == f * m - x;
  }

  lemma QuotientAbove(x: real, m: real, f: real)
    requires m > 0.0
    ensures x / m > f <==> x > f * m
  {
    var q := x / m;
    assert q * m == x;
    SameSign(q - f, m);
    assert (q - f) * m == x - f * m;
  }

  lemma SameSign(a: real, m: real)
    requires m > 0.0
    ensures a > 0.0 <==> a * m > 0.0
  {
  }

  /** Comparing a hundred times an integer is comparing its real value. */
  lemma Percent(v: int, max: int)
    ensures 100 * v < 15 * max <==> v as real < 0.15 * max as real
    ensures 100 * v > 85 * max <==> v as real > 0.85 * max as real
  {
    assert (100 * v) as real == 100.0 * v as real;
    assert (15 * max) as real == 15.0 * max as real && (85 * max) as real == 85.0 * max as real;
  }

  /** Within 15 percent of either end of an axis. */
  lemma NearEdgeExactly(v: int, max: int)
    requires max > 0
    ensures NearEdge(v, max) <==> 100 * v < 15 * max || 100 * v > 85 * max
  {
    QuotientBelow(v as real, max as real, 0.15);
    QuotientAbove(v as real, max as real, 0.85);
    Percent(v, max);
  }

  /** In a corner: near an edge on both axes at once. A position or a range that is not known is
      in none. */
  lemma CornerExactly(p: Pos, r: Range)
    ensures p.x.None? || p.y.None? || r.xmax == 0 || r.ymax == 0 ==> !IsCorner(p, r)
    ensures p.x.Some? && p.y.Some? && r.xmax > 0 && r.ymax > 0 ==>
              (IsCorner(p, r) <==>
               (100 * p.x.value < 15 * r.xmax || 100 * p.x.value > 85 * r.xmax)
               && (100 * p.y.value < 15 * r.ymax || 100 * p.y.value > 85 * r.ymax))
  {
    if p.x.Some? && p.y.Some? && r.xmax > 0 && r.ymax > 0 {
      NearEdgeExactly(p.x.value, r.xmax);
      NearEdgeExactly(p.y.value, r.ymax);
    }
  }

  // ---- Taps ----

  /** Input i lifts a finger whose latest x and y, since its last lift, are in a corner. */
  ghost predicate TapAt(inputs: seq<Input>, i: int, ranges: map<Int32, Range>)
    requires 0 <= i < |inputs|
  {
    var f := Finger(inputs[i].fd, SlotBefore(inputs, i, inputs[i].fd));
    && inputs[i].event == TrackingEvent(-1) && f.fd in ranges
    && exists x, y :: Latest(inputs[..i], f, AxisX, x) && Latest(inputs[..i], f, AxisY, y)
                      && IsCorner(Pos(Some(x), Some(y)), ranges[f.fd])
  }

  /** One tap, at the time of its batch, per such input from number `from` on. */
  ghost function TapsIn(inputs: seq<Input>, from: nat, ranges: map<Int32, Range>, now: real): seq<real>
    requires from <= |inputs|
    decreases |inputs|
  {
    if |inputs| == from then []
    else
      TapsIn(inputs[..|inputs| - 1], from, ranges, now) + if TapAt(inputs, |inputs| - 1, ranges) then [now] else []
  }

  lemma TapExactly(inputs: seq<Input>, ranges: map<Int32, Range>, now: real)
    requires inputs != []
    ensures
      var (before, last) := (inputs[..|inputs| - 1], inputs[|inputs| - 1]);
      CornerLifts(LiftOf(HandleAll(EMPTY_HANDS, before), last), ranges, now)
      == if TapAt(inputs, |inputs| - 1, ranges) then [now] else []
  {
    var n := |inputs| - 1;
    var (before, last) := (inputs[..n], inputs[n]);
    var h := HandleAll(EMPTY_HANDS, before);
    CurrentIsLatest(before, last.fd);
    SlotBeforePrefix(inputs, n, n, last.fd);
    var f := Finger(last.fd, SlotBefore(inputs, n, last.fd));
    assert f == Finger(last.fd, CurrentSlot(h, last.fd));
    PositionKnown(before, f);
    OneLift(LiftOf(h, last), ranges, now);
  }

  /** A finger's position holds exactly its latest coordinates. */
  lemma PositionKnown(inputs: seq<Input>, f: Finger)
    ensures
      var p := PosAt(HandleAll(EMPTY_HANDS, inputs), f);
      forall x, y :: Latest(inputs, f, AxisX, x) && Latest(inputs, f, AxisY, y) <==> p == Pos(Some(x), Some(y))
  {
    var p := PosAt(HandleAll(EMPTY_HANDS, inputs), f);
    forall x, y ensures Latest(inputs, f, AxisX, x) && Latest(inputs, f, AxisY, y) <==> p == Pos(Some(x), Some(y)) {
      PositionIsLatest(inputs, f, AxisX, x);
      PositionIsLatest(inputs, f, AxisY, y);
    }
  }

  lemma OneLift(lifts: seq<Lift>, ranges: map<Int32, Range>, now: real)
    requires |lifts| <= 1
    ensures CornerLifts(lifts, ranges, now)
         == if lifts != [] && lifts[0].fd in ranges && IsCorner(lifts[0].pos, ranges[lifts[0].fd]) then [now] else []
  {
    if lifts != [] {
      assert lifts[..0] == [];
    }
  }

  lemma {:induction false} CornerLiftsConcat(a: seq<Lift>, b: seq<Lift>, ranges: map<Int32, Range>, now: real)
    ensures CornerLifts(a + b, ranges, now) == CornerLifts(a, ranges, now) + CornerLifts(b, ranges, now)
  {
    if b == [] {
      assert a + b == a;
    } else {
      CornerLiftsConcat(a, b[..|b| - 1], ranges, now);
      assert (a + b)[..|a + b| - 1] == a + b[..|b| - 1];
    }
  }

  lemma OneMoreInput(before: seq<Input>, init: seq<Input>, last: Input, ranges: map<Int32, Range>, now: real)
    ensures
      var (h, all) := (HandleAll(EMPTY_HANDS, before), before + init);
      && LiftOf(HandleAll(h, init), last) == LiftOf(HandleAll(EMPTY_HANDS, all), last)
      && CornerLifts(Lifts(h, init + [last]), ranges, now)
      == CornerLifts(Lifts(h, init), ranges, now)
         + CornerLifts(LiftOf(HandleAll(EMPTY_HANDS, all), last), ranges, now)
  {
    var h := HandleAll(EMPTY_HANDS, before);
    HandleAllConcat(EMPTY_HANDS, before, init);
    assert (init + [last])[..|init|] == init;
    CornerLiftsConcat(Lifts(h, init), LiftOf(HandleAll(h, init), last), ranges, now);
  }

  lemma TapsStep(all: seq<Input>, last: Input, from: nat, ranges: map<Int32, Range>, now: real)
    requires from <= |all|
    ensures TapsIn(all + [last], from, ranges, now)
         == TapsIn(all, from, ranges, now) + CornerLifts(LiftOf(HandleAll(EMPTY_HANDS, all), last), ranges, now)
  {
    var more := all + [last];
    assert more[..|all|] == all && more[|all|] == last;
    TapExactly(more, ranges, now);
  }

  ghost predicate TapsMatch(before: seq<Input>, inputs: seq<Input>, ranges: map<Int32, Range>, now: real) {
    CornerLifts(Lifts(HandleAll(EMPTY_HANDS, before), inputs), ranges, now)
    == TapsIn(before + inputs, |before|, ranges, now)
  }

  lemma OneMoreTap(before: seq<Input>, init: seq<Input>, last: Input, ranges: map<Int32, Range>, now: real)
    requires TapsMatch(before, init, ranges, now)
    ensures TapsMatch(before, init + [last], ranges, now)
  {
    OneMoreInput(before, init, last, ranges, now);
    TapsStep(before + init, last, |before|, ranges, now);
    assert before + (init + [last]) == (before + init) + [last];
  }

  lemma NoTapYet(before: seq<Input>, ranges: map<Int32, Range>, now: real)
    ensures TapsMatch(before, [], ranges, now)
  {
    assert before + [] == before;
  }

  lemma {:induction false} BatchTaps(before: seq<Input>, inputs: seq<Input>, ranges: map<Int32, Range>, now: real)
    ensures TapsMatch(before, inputs, ranges, now)
  {
    if inputs == [] {
      NoTapYet(before, ranges, now);
    } else {
      var (init, last) := (inputs[..|inputs| - 1], inputs[|inputs| - 1]);
      BatchTaps(before, init, ranges, now);
      OneMoreTap(before, init, last, ranges, now);
      assert init + [last] == inputs;
    }
  }

  /** The taps of a batch are exactly its corner lifts, judged by the whole history. */
  lemma TapsAreCornerLifts(ranges: map<Int32, Range>, bs: seq<Batch>, b: Batch)
    ensures NewTaps(After(ranges, bs), ranges, b)
         == TapsIn(AllInputs(bs) + b.inputs, |AllInputs(bs)|, ranges, b.now)
  {
    HandsAfter(ranges, bs);
    BatchTaps(AllInputs(bs), b.inputs, ranges, b.now);
  }

  /** Recent means at most four seconds ago. */
  lemma RecentExactly(times: seq<real>, t: real, now: real)
    ensures Recent(times + [t], now) == Recent(times, now) + if now - t <= 4.0 then [t] else []
  {
    assert (times + [t])[..|times|] == times;
  }

  // ---- Launches ----

  /** One step: each gesture launches exactly under its own condition, never both; a launch starts
      the cooldown, a corner launch forgets the taps, and a finger launch or too few fingers end
      the hold. */
  lemma StepExactly(w: Watch, ranges: map<Int32, Range>, b: Batch)
    ensures
      var (w', launch) := Turn(w, ranges, b);
      var (taps, cool) := (Tapped(w, ranges, b), b.now - w.lastTrigger >= 5.0);
      && (launch == CornerTap <==> |taps| >= 5 && cool)
      && (launch == FingerHold <==> |w'.hands.down| >= 5 && w.heldSince.Some? && b.now - w.heldSince.value >= 2.0
                                    && cool && |taps| < 5)
      && w'.hands == HandleAll(w.hands, b.inputs)
      && w'.lastTrigger == (if launch == NoLaunch then w.lastTrigger else b.now)
      && w'.taps == (if launch == CornerTap then [] else taps)
      && w'.heldSince == if |w'.hands.down| < 5 || launch == FingerHold then None
                         else if w.heldSince.None? then Some(b.now) else w.heldSince
  {
  }

  // ---- Holds ----

  /** Step by step: whether five fingers are down, whether they launch, and the hold remembered. */
  function FiveDown(ranges: map<Int32, Range>, bs: seq<Batch>): int -> bool {
    k => 0 <= k < |bs| && ActiveAt(ranges, bs, k) >= 5
  }

  function Launching(ranges: map<Int32, Range>, bs: seq<Batch>): int -> bool {
    k => 0 <= k < |bs| && LaunchAt(ranges, bs, k) == FingerHold
  }

  function Remembered(ranges: map<Int32, Range>, bs: seq<Batch>): int -> Option<real> {
    k => if 0 <= k < |bs| then After(ranges, bs[..k + 1]).heldSince else None
  }

  function Times(bs: seq<Batch>): int -> real {
    k => if 0 <= k < |bs| then bs[k].now else 0.0
  }

  /** At step n five fingers are down and have been since step m, where the hold began: the first
      step of all, or after one with fewer fingers or a finger launch. */
  ghost predicate HeldSince(down: int -> bool, launching: int -> bool, m: int, n: int) {
    0 <= m <= n && (forall k | m <= k <= n :: down(k) && !launching(k)) && (m == 0 || !down(m - 1) || launching(m - 1))
  }

  /** How the remembered hold moves at step k. */
  ghost predicate Moves(down: int -> bool, launching: int -> bool, time: int -> real, held: int -> Option<real>,
                        k: int) {
    held(k) == if !down(k) || launching(k) then None
               else if k == 0 || held(k - 1).None? then Some(time(k)) else held(k - 1)
  }

  /** What is remembered after step n is the beginning of the hold going on, if one is. */
  ghost predicate Tells(down: int -> bool, launching: int -> bool, time: int -> real, held: int -> Option<real>,
                        n: int) {
    && (held(n).Some? <==> exists m :: HeldSince(down, launching, m, n))
    && (forall m | HeldSince(down, launching, m, n) :: held(n) == Some(time(m)))
  }

  lemma {:induction false} HoldIsHistory(down: int -> bool, launching: int -> bool, time: int -> real,
                                         held: int -> Option<real>, n: nat)
    requires forall k | 0 <= k <= n :: Moves(down, launching, time, held, k)
    ensures Tells(down, launching, time, held, n)
  {
    assert Moves(down, launching, time, held, n);
    if n > 0 {
      HoldIsHistory(down, launching, time, held, n - 1);
      TellsStep(down, launching, time, held, n - 1, n);
    } else if down(0) && !launching(0) {
      assert HeldSince(down, launching, 0, 0);
    }
  }

  lemma TellsStep(down: int -> bool, launching: int -> bool, time: int -> real, held: int -> Option<real>,
                  p: nat, n: nat)
    requires n == p + 1 && Tells(down, launching, time, held, p) && Moves(down, launching, time, held, n)
    ensures Tells(down, launching, time, held, n)
  {
    HoldsGoOn(down, launching, p, n);
    if down(n) && !launching(n) {
      if held(p).None? {
        HoldBegins(down, launching, p, n);
        assert HeldSince(down, launching, n, n);
      } else {
        var m :| HeldSince(down, launching, m, p);
        assert HeldSince(down, launching, m, n);
        assert !HeldSince(down, launching, n, n);
      }
    }
  }

  lemma HoldsGoOn(down: int -> bool, launching: int -> bool, p: nat, n: nat)
    requires n == p + 1
    ensures forall m | m <= p :: HeldSince(down, launching, m, n) <==>
              HeldSince(down, launching, m, p) && down(n) && !launching(n)
  {
  }

  /** Without a hold before, one begins here. */
  lemma HoldBegins(down: int -> bool, launching: int -> bool, p: nat, n: nat)
    requires n == p + 1 && down(n) && !launching(n) && !exists m :: HeldSince(down, launching, m, p)
    ensures HeldSince(down, launching, n, n)
  {
    if down(p) && !launching(p) {
      var m := HoldReachesBack(down, launching, p);
      assert false;
    }
  }

  lemma {:induction false} HoldReachesBack(down: int -> bool, launching: int -> bool, n: nat) returns (m: int)
    requires down(n) && !launching(n)
    ensures HeldSince(down, launching, m, n)
  {
    m := n;
    if n > 0 && down(n - 1) && !launching(n - 1) {
      m := HoldReachesBack(down, launching, n - 1);
    }
  }

  lemma StepRemembers(ranges: map<Int32, Range>, bs: seq<Batch>, k: nat)
    requires k < |bs|
    ensures
      var (before, held) := (After(ranges, bs[..k]).heldSince, After(ranges, bs[..k + 1]).heldSince);
      held == if ActiveAt(ranges, bs, k) < 5 || LaunchAt(ranges, bs, k) == FingerHold then None
              else if before.None? then Some(bs[k].now) else before
  {
    AfterStep(ranges, bs, k);
    StepExactly(After(ranges, bs[..k]), ranges, bs[k]);
  }

  lemma RunMoves(ranges: map<Int32, Range>, bs: seq<Batch>, k: nat)
    requires k < |bs|
    ensures Moves(FiveDown(ranges, bs), Launching(ranges, bs), Times(bs), Remembered(ranges, bs), k)
  {
    StepRemembers(ranges, bs, k);
    if k == 0 {
      NothingHeldAtStart(ranges, bs);
    }
  }

  lemma LaunchStep(ranges: map<Int32, Range>, bs: seq<Batch>, n: nat)
    requires n < |bs|
    ensures
      var w := After(ranges, bs[..n]);
      LaunchAt(ranges, bs, n) == FingerHold <==>
        && ActiveAt(ranges, bs, n) >= 5 && w.heldSince.Some? && bs[n].now - w.heldSince.value >= 2.0
        && bs[n].now - w.lastTrigger >= 5.0 && |Tapped(w, ranges, bs[n])| < 5
  {
    AfterStep(ranges, bs, n);
    StepExactly(After(ranges, bs[..n]), ranges, bs[n]);
  }

  /** A hold of two seconds is going on when step n comes. */
  ghost predicate HeldLongEnough(ranges: map<Int32, Range>, bs: seq<Batch>, n: nat)
    requires n < |bs|
  {
    exists m :: HeldSince(FiveDown(ranges, bs), Launching(ranges, bs), m, n - 1) && bs[n].now - Times(bs)(m) >= 2.0
  }

  lemma LongEnoughExactly(ranges: map<Int32, Range>, bs: seq<Batch>, n: nat)
    requires n < |bs|
    ensures
      var held := After(ranges, bs[..n]).heldSince;
      HeldLongEnough(ranges, bs, n) <==> held.Some? && bs[n].now - held.value >= 2.0
  {
    if n == 0 {
      NothingHeldAtStart(ranges, bs);
    } else {
      forall k: nat | k < n
        ensures Moves(FiveDown(ranges, bs), Launching(ranges, bs), Times(bs), Remembered(ranges, bs), k)
      {
        RunMoves(ranges, bs, k);
      }
      HoldIsHistory(FiveDown(ranges, bs), Launching(ranges, bs), Times(bs), Remembered(ranges, bs), n - 1);
      assert Remembered(ranges, bs)(n - 1) == After(ranges, bs[..n]).heldSince;
    }
  }

  /** A finger launch happens exactly when five fingers are down, have been for two seconds since
      the hold began, the last launch is five seconds ago, and no corner launch is due. */
  lemma HoldLaunchExactly(ranges: map<Int32, Range>, bs: seq<Batch>, n: nat)
    requires n < |bs|
    ensures LaunchAt(ranges, bs, n) == FingerHold <==>
            && ActiveAt(ranges, bs, n) >= 5 && HeldLongEnough(ranges, bs, n)
            && bs[n].now - After(ranges, bs[..n]).lastTrigger >= 5.0
            && |Tapped(After(ranges, bs[..n]), ranges, bs[n])| < 5
  {
    LaunchStep(ranges, bs, n);
    LongEnoughExactly(ranges, bs, n);
  }
}
