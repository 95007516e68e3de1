/** The touch daemon: five fingers held, or five taps in a corner, open the admin overlay. */
module Gesture {
  import opened Basics

  const HOLD_FINGERS := 5
  const HOLD_SECONDS := 2.0
  const COOLDOWN_SECONDS := 5.0
  const CORNER_TAPS := 5
  const CORNER_WINDOW := 4.0
  const CORNER_FRAC := 0.15

  /** Kernel input values and file descriptors are 32-bit. */
  type Int32 = x: int | -0x8000_0000 <= x <= 0x7FFF_FFFF

  /** One absolute-axis event of a device. */
  datatype Event = SlotEvent(value: Int32) | XEvent(value: Int32) | YEvent(value: Int32) | TrackingEvent(value: Int32)

  datatype Input = Input(fd: Int32, event: Event)

  /** A multitouch slot of one device. */
  datatype Finger = Finger(fd: Int32, slot: Int32)

  datatype Pos = Pos(x: Option<int>, y: Option<int>)

  datatype Range = Range(xmax: int, ymax: int)

  datatype Lift = Lift(fd: Int32, pos: Pos)

  /** The dictionaries of `watch`; a device's current slot is 0 until it reports one. */
  datatype Hands = Hands(current: map<Int32, Int32>, down: set<Finger>, pos: map<Finger, Pos>)

  const EMPTY_HANDS := Hands(map[], {}, map[])

  function CurrentSlot(h: Hands, fd: Int32): Int32 {
    if fd in h.current then h.current[fd] else 0
  }

  function PosAt(h: Hands, f: Finger): Pos {
    if f in h.pos then h.pos[f] else Pos(None, None)
  }

  function Handle(h: Hands, i: Input): Hands {
    var f := Finger(i.fd, CurrentSlot(h, i.fd));
    match i.event
    case SlotEvent(v) => h.(current := h.current[i.fd := v])
    case XEvent(v) => h.(pos := h.pos[f := PosAt(h, f).(x := Some(v))])
    case YEvent(v) => h.(pos := h.pos[f := PosAt(h, f).(y := Some(v))])
    case TrackingEvent(v) =>
      if v == -1 then h.(down := h.down - {f}, pos := h.pos - {f}) else h.(down := h.down + {f})
  }

  /** The lift an input reports, if the finger's position is known. */
  function LiftOf(h: Hands, i: Input): seq<Lift> {
    var f := Finger(i.fd, CurrentSlot(h, i.fd));
    if i.event == TrackingEvent(-1) && f in h.pos then [Lift(i.fd, h.pos[f])] else []
  }

  function HandleAll(h: Hands, inputs: seq<Input>): Hands {
    if inputs == [] then h else Handle(HandleAll(h, inputs[..|inputs| - 1]), inputs[|inputs| - 1])
  }

  function Lifts(h: Hands, inputs: seq<Input>): seq<Lift> {
    if inputs == [] then []
    else
      var before := inputs[..|inputs| - 1];
      Lifts(h, before) + LiftOf(HandleAll(h, before), inputs[|inputs| - 1])
  }

  // ---- Corners ----

  predicate NearEdge(v: int, max: int)
    requires max != 0
  {
    var n := v as real / max as real;
    n < CORNER_FRAC || n > 1.0 - CORNER_FRAC
  }

  predicate IsCorner(p: Pos, r: Range) {
    r.xmax != 0 && r.ymax != 0 && p.x.Some? && p.y.Some? && NearEdge(p.x.value, r.xmax) && NearEdge(p.y.value, r.ymax)
  }

  lemma NearEdgeMirrors(v: int, max: int)
    requires max != 0
    ensures NearEdge(max - v, max) <==> NearEdge(v, max)
  {
    DivMirrors(v as real, max as real);
    assert (max - v) as real == max as real - v as real;
  }

  lemma DivMirrors(v: real, max: real)
    requires max != 0.0
    ensures (max - v) / max == 1.0 - v / max
  {
    var (q, r) := (v / max, (max - v) / max);
    assert q * max == v && r * max == max - v;
    Cancel(r, 1.0 - q, max);
  }

  lemma Cancel(a: real, b: real, c: real)
    requires c != 0.0 && a * c == b * c
    ensures a == b
  {
  }

  /** Rotation-agnostic: turning the touch panel by any multiple of 90 degrees, or mirroring
      it, does not change what is a corner. */
  lemma CornersSurviveRotation(x: int, y: int, r: Range)
    ensures
      var here := IsCorner(Pos(Some(x), Some(y)), r);
      && (here <==> IsCorner(Pos(Some(r.ymax - y), Some(x)), Range(r.ymax, r.xmax)))
      && (here <==> IsCorner(Pos(Some(r.xmax - x), Some(r.ymax - y)), r))
      && (here <==> IsCorner(Pos(Some(y), Some(r.xmax - x)), Range(r.ymax, r.xmax)))
      && (here <==> IsCorner(Pos(Some(r.xmax - x), Some(y)), r))
  {
    if r.xmax != 0 && r.ymax != 0 {
      NearEdgeMirrors(x, r.xmax);
      NearEdgeMirrors(y, r.ymax);
    }
  }

  // ---- The loop ----

  /** One wake-up: the events read from the ready devices, in order, up to any read error,
      and the clock after reading. */
  datatype Batch = Batch(inputs: seq<Input>, now: real)

  datatype Watch = Watch(hands: Hands, heldSince: Option<real>, lastTrigger: real, taps: seq<real>)

  const START := Watch(EMPTY_HANDS, None, 0.0, [])

  datatype Launch = NoLaunch | CornerTap | FingerHold

  function RangeOf(ranges: map<Int32, Range>, fd: Int32): Range {
    if fd in ranges then ranges[fd] else Range(0, 0)
  }

  /** One entry, the time of the batch, per lift in a corner. */
  function CornerLifts(lifts: seq<Lift>, ranges: map<Int32, Range>, now: real): seq<real> {
    if lifts == [] then []
    else
      var last := lifts[|lifts| - 1];
      CornerLifts(lifts[..|lifts| - 1], ranges, now)
      + if IsCorner(last.pos, RangeOf(ranges, last.fd)) then [now] else []
  }

  function Recent(times: seq<real>, now: real): seq<real> {
    if times == [] then []
    else
      var last := times[|times| - 1];
      Recent(times[..|times| - 1], now) + if now - last <= CORNER_WINDOW then [last] else []
  }

  /** The batch's corner lifts. */
  function NewTaps(w: Watch, ranges: map<Int32, Range>, b: Batch): seq<real> {
    CornerLifts(Lifts(w.hands, b.inputs), ranges, b.now)
  }

  /** The pruned list once the batch's corner lifts are in. */
  function Tapped(w: Watch, ranges: map<Int32, Range>, b: Batch): seq<real> {
    Recent(w.taps + NewTaps(w, ranges, b), b.now)
  }

  predicate CornerFires(w: Watch, ranges: map<Int32, Range>, b: Batch) {
    |Tapped(w, ranges, b)| >= CORNER_TAPS && b.now - w.lastTrigger >= COOLDOWN_SECONDS
  }

  /** The finger-hold half of a step, given whether a corner launch just happened. */
  function HoldTurn(heldSince: Option<real>, active: nat, now: real, lastTrigger: real): (Option<real>, bool) {
    if active < HOLD_FINGERS then (None, false)
    else if heldSince.None? then (Some(now), false)
    else if now - heldSince.value >= HOLD_SECONDS && now - lastTrigger >= COOLDOWN_SECONDS then (None, true)
    else (heldSince, false)
  }

  function Turn(w: Watch, ranges: map<Int32, Range>, b: Batch): (Watch, Launch) {
    var hands := HandleAll(w.hands, b.inputs);
    var corner := CornerFires(w, ranges, b);
    var trigger := if corner then b.now else w.lastTrigger;
    var (heldSince, hold) := HoldTurn(w.heldSince, |hands.down|, b.now, trigger);
    (Watch(hands, heldSince, if hold then b.now else trigger, if corner then [] else Tapped(w, ranges, b)),
     if hold then FingerHold else if corner then CornerTap else NoLaunch)
  }

  class TouchWatcher {
    const ranges: map<Int32, Range>
    var currentSlot: map<Int32, Int32>
    var slots: set<Finger>
    var pos: map<Finger, Pos>
    var heldSince: Option<real>
    var lastTrigger: real
    var cornerTaps: seq<real>

    constructor (ranges: map<Int32, Range>)
      ensures this.ranges == ranges && Now() == START
    {
      this.ranges := ranges;
      currentSlot, slots, pos, heldSince, lastTrigger, cornerTaps := map[], {}, map[], None, 0.0, [];
    }

    function HandsNow(): Hands
      reads this
    {
      Hands(currentSlot, slots, pos)
    }

    function Now(): Watch
      reads this
    {
      Watch(HandsNow(), heldSince, lastTrigger, cornerTaps)
    }

    method ReadEvent(i: Input) returns (lifted: seq<Lift>)
      modifies this`currentSlot, this`slots, this`pos
      ensures HandsNow() == Handle(old(HandsNow()), i) && lifted == LiftOf(old(HandsNow()), i)
    {
      lifted := [];
      var f := Finger(i.fd, CurrentSlot(HandsNow(), i.fd));
      match i.event
      case SlotEvent(v) => currentSlot := currentSlot[i.fd := v];
      case XEvent(v) => pos := pos[f := PosAt(HandsNow(), f).(x := Some(v))];
      case YEvent(v) => pos := pos[f := PosAt(HandsNow(), f).(y := Some(v))];
      case TrackingEvent(v) =>
        if v == -1 {
          if f in pos {
            lifted := [Lift(i.fd, pos[f])];
          }
          slots := slots - {f};
          pos := pos - {f};
        } else {
          slots := slots + {f};
        }
    }

    method ReadAll(inputs: seq<Input>) returns (lifts: seq<Lift>)
      modifies this`currentSlot, this`slots, this`pos
      ensures HandsNow() == HandleAll(old(HandsNow()), inputs) && lifts == Lifts(old(HandsNow()), inputs)
    {
      lifts := [];
      for i := 0 to |inputs|
        invariant HandsNow() == HandleAll(old(HandsNow()), inputs[..i])
        invariant lifts == Lifts(old(HandsNow()), inputs[..i])
      {
        assert inputs[..i + 1][..i] == inputs[..i];
        var lifted := ReadEvent(inputs[i]);
        lifts := lifts + lifted;
      }
      assert inputs[..|inputs|] == inputs;
    }

    method NoteCornerTaps(lifts: seq<Lift>, now: real)
      modifies this`cornerTaps
      ensures cornerTaps == old(cornerTaps) + CornerLifts(lifts, ranges, now)
    {
      for i := 0 to |lifts|
        invariant cornerTaps == old(cornerTaps) + CornerLifts(lifts[..i], ranges, now)
      {
        assert lifts[..i + 1][..i] == lifts[..i];
        if IsCorner(lifts[i].pos, RangeOf(ranges, lifts[i].fd)) {
          cornerTaps := cornerTaps + [now];
        }
      }
      assert lifts[..|lifts|] == lifts;
    }

    /** The body of the endless loop. */
    method WakeUp(b: Batch) returns (launch: Launch)
      modifies this
      ensures (Now(), launch) == Turn(old(Now()), ranges, b)
    {
      launch := NoLaunch;
      var lifts := ReadAll(b.inputs);
      var active := |slots|;
      NoteCornerTaps(lifts, b.now);
      if cornerTaps != [] {
        cornerTaps := Recent(cornerTaps, b.now);
        if |cornerTaps| >= CORNER_TAPS && b.now - lastTrigger >= COOLDOWN_SECONDS {
          launch := CornerTap;
          lastTrigger := b.now;
          cornerTaps := [];
        }
      }
      if active >= HOLD_FINGERS {
        if heldSince.None? {
          heldSince := Some(b.now);
        } else if b.now - heldSince.value >= HOLD_SECONDS && b.now - lastTrigger >= COOLDOWN_SECONDS {
          launch := FingerHold;
          lastTrigger := b.now;
          heldSince := None;
        }
      } else {
        heldSince := None;
      }
    }
  }

  // ---- Which fingers are down ----

  /** The slot a device reported last before input n. */
  function SlotBefore(inputs: seq<Input>, n: nat, fd: Int32): Int32
    requires n <= |inputs|
  {
    if n == 0 then 0
    else if inputs[n - 1].fd == fd && inputs[n - 1].event.SlotEvent? then inputs[n - 1].event.value
    else SlotBefore(inputs, n - 1, fd)
  }

  /** Input i is a tracking event of this finger. */
  ghost predicate Tracks(inputs: seq<Input>, i: int, f: Finger) {
    0 <= i < |inputs| && inputs[i].fd == f.fd && inputs[i].event.TrackingEvent? && SlotBefore(inputs, i, f.fd) == f.slot
  }

  /** The finger's latest tracking event is a touch. */
  ghost predicate Touching(inputs: seq<Input>, f: Finger) {
    exists i :: Tracks(inputs, i, f) && inputs[i].event.value != -1
                && forall j | i < j < |inputs| :: !Tracks(inputs, j, f)
  }

  lemma {:induction false} SlotBeforePrefix(inputs: seq<Input>, n: nat, k: nat, fd: Int32)
    requires n <= k <= |inputs|
    ensures SlotBefore(inputs[..k], n, fd) == SlotBefore(inputs, n, fd)
    decreases n
  {
    if n > 0 {
      SlotBeforePrefix(inputs, n - 1, k, fd);
    }
  }

  lemma {:induction false} CurrentIsLatest(inputs: seq<Input>, fd: Int32)
    ensures CurrentSlot(HandleAll(EMPTY_HANDS, inputs), fd) == SlotBefore(inputs, |inputs|, fd)
  {
    if inputs != [] {
      var before := inputs[..|inputs| - 1];
      CurrentIsLatest(before, fd);
      SlotBeforePrefix(inputs, |before|, |before|, fd);
    }
  }

  lemma TracksPrefix(inputs: seq<Input>, i: nat, f: Finger)
    requires i < |inputs| - 1
    ensures Tracks(inputs[..|inputs| - 1], i, f) <==> Tracks(inputs, i, f)
  {
    SlotBeforePrefix(inputs, i, |inputs| - 1, f.fd);
  }

  lemma TouchingStep(inputs: seq<Input>, f: Finger)
    requires inputs != []
    ensures Touching(inputs, f) <==>
            if Tracks(inputs, |inputs| - 1, f) then inputs[|inputs| - 1].event.value != -1
            else Touching(inputs[..|inputs| - 1], f)
  {
    var n := |inputs| - 1;
    var before := inputs[..n];
    forall i: nat | i < n ensures Tracks(before, i, f) <==> Tracks(inputs, i, f) {
      TracksPrefix(inputs, i, f);
    }
    if Tracks(inputs, n, f) {
      if inputs[n].event.value != -1 {
        assert Touching(inputs, f);
      }
    } else {
      if Touching(before, f) {
        var i :| Tracks(before, i, f) && before[i].event.value != -1 && forall j | i < j < n :: !Tracks(before, j, f);
        assert Tracks(inputs, i, f) && inputs[i].event.value != -1;
      }
      if Touching(inputs, f) {
        var i :| Tracks(inputs, i, f) && inputs[i].event.value != -1
                 && forall j | i < j < |inputs| :: !Tracks(inputs, j, f);
        assert Tracks(before, i, f) && before[i].event.value != -1;
      }
    }
  }

  /** The fingers counted as active are exactly those whose latest tracking event, over the
      whole history of all devices, is a touch. */
  lemma {:induction false} DownIsTouching(inputs: seq<Input>, f: Finger)
    ensures f in HandleAll(EMPTY_HANDS, inputs).down <==> Touching(inputs, f)
  {
    if inputs != [] {
      DownIsTouching(inputs[..|inputs| - 1], f);
      TouchingStep(inputs, f);
      CurrentIsLatest(inputs[..|inputs| - 1], f.fd);
      SlotBeforePrefix(inputs, |inputs| - 1, |inputs| - 1, f.fd);
    }
  }

  // ---- Where a lifted finger was ----

  ghost predicate On(inputs: seq<Input>, i: int, f: Finger) {
    0 <= i < |inputs| && inputs[i].fd == f.fd && SlotBefore(inputs, i, f.fd) == f.slot
  }

  datatype Axis = AxisX | AxisY

  predicate Reports(e: Event, a: Axis) {
    if a == AxisX then e.XEvent? else e.YEvent?
  }

  function Coordinate(p: Pos, a: Axis): Option<int> {
    if a == AxisX then p.x else p.y
  }

  /** Input i reports v on this axis for the finger, and nothing later replaces or drops it. */
  ghost predicate Stands(inputs: seq<Input>, f: Finger, a: Axis, v: int, i: int) {
    && On(inputs, i, f) && Reports(inputs[i].event, a) && inputs[i].event.value == v
    && forall j | i < j && On(inputs, j, f) :: !Reports(inputs[j].event, a) && inputs[j].event != TrackingEvent(-1)
  }

  /** The latest coordinate reported for the finger, with no lift of it since. */
  ghost predicate Latest(inputs: seq<Input>, f: Finger, a: Axis, v: int) {
    exists i :: Stands(inputs, f, a, v, i)
  }

  lemma OnPrefix(inputs: seq<Input>, i: int, f: Finger)
    requires i < |inputs| - 1 && inputs != []
    ensures On(inputs[..|inputs| - 1], i, f) <==> On(inputs, i, f)
  {
    if i >= 0 {
      SlotBeforePrefix(inputs, i, |inputs| - 1, f.fd);
    }
  }

  lemma LatestStep(inputs: seq<Input>, f: Finger, a: Axis, v: int)
    requires inputs != []
    ensures
      var (n, last) := (|inputs| - 1, inputs[|inputs| - 1].event);
      Latest(inputs, f, a, v) <==>
        if On(inputs, n, f) && Reports(last, a) then last.value == v
        else !(On(inputs, n, f) && last == TrackingEvent(-1)) && Latest(inputs[..n], f, a, v)
  {
    var n := |inputs| - 1;
    var before := inputs[..n];
    forall i: int | i < n ensures On(before, i, f) <==> On(inputs, i, f) {
      OnPrefix(inputs, i, f);
    }
    if On(inputs, n, f) && Reports(inputs[n].event, a) && inputs[n].event.value == v {
      assert Stands(inputs, f, a, v, n);
    }
    if i :| Stands(before, f, a, v, i) {
      assert On(inputs, i, f) && inputs[i].event == before[i].event;
      if !(On(inputs, n, f) && (Reports(inputs[n].event, a) || inputs[n].event == TrackingEvent(-1))) {
        assert Stands(inputs, f, a, v, i);
      }
    }
    if i :| Stands(inputs, f, a, v, i) && i < n {
      assert On(before, i, f) && inputs[i].event == before[i].event;
      assert Stands(before, f, a, v, i);
    }
  }

  /** The position a lift is judged by is the latest x and the latest y reported for that
      finger since its previous lift, however other slots and devices interleave. */
  lemma {:induction false} PositionIsLatest(inputs: seq<Input>, f: Finger, a: Axis, v: int)
    ensures Coordinate(PosAt(HandleAll(EMPTY_HANDS, inputs), f), a) == Some(v) <==> Latest(inputs, f, a, v)
  {
    if inputs != [] {
      PositionIsLatest(inputs[..|inputs| - 1], f, a, v);
      LatestStep(inputs, f, a, v);
      CurrentIsLatest(inputs[..|inputs| - 1], f.fd);
      SlotBeforePrefix(inputs, |inputs| - 1, |inputs| - 1, f.fd);
    }
  }

  // ---- Runs of the loop ----

  function After(ranges: map<Int32, Range>, bs: seq<Batch>): Watch {
    if bs == [] then START else Turn(After(ranges, bs[..|bs| - 1]), ranges, bs[|bs| - 1]).0
  }

  function LaunchAt(ranges: map<Int32, Range>, bs: seq<Batch>, n: nat): Launch
    requires n < |bs|
  {
    Turn(After(ranges, bs[..n]), ranges, bs[n]).1
  }

  function AllInputs(bs: seq<Batch>): seq<Input> {
    if bs == [] then [] else AllInputs(bs[..|bs| - 1]) + bs[|bs| - 1].inputs
  }

  lemma {:induction false} HandleAllConcat(h: Hands, a: seq<Input>, b: seq<Input>)
    ensures HandleAll(h, a + b) == HandleAll(HandleAll(h, a), b)
  {
    if b == [] {
      assert a + b == a;
    } else {
      HandleAllConcat(h, a, b[..|b| - 1]);
      assert (a + b)[..|a + b| - 1] == a + b[..|b| - 1];
    }
  }

  lemma {:induction false} HandsAfter(ranges: map<Int32, Range>, bs: seq<Batch>)
    ensures After(ranges, bs).hands == HandleAll(EMPTY_HANDS, AllInputs(bs))
  {
    if bs != [] {
      HandsAfter(ranges, bs[..|bs| - 1]);
      HandleAllConcat(EMPTY_HANDS, AllInputs(bs[..|bs| - 1]), bs[|bs| - 1].inputs);
    }
  }

  /** The active set at any step, from the history alone. */
  lemma ActiveIsTouching(ranges: map<Int32, Range>, bs: seq<Batch>, f: Finger)
    ensures f in After(ranges, bs).hands.down <==> Touching(AllInputs(bs), f)
  {
    HandsAfter(ranges, bs);
    DownIsTouching(AllInputs(bs), f);
  }

  ghost predicate Monotonic(bs: seq<Batch>) {
    && (forall i | 0 <= i < |bs| :: bs[i].now >= 0.0)
    && (forall i, j | 0 <= i < j < |bs| :: bs[i].now <= bs[j].now)
  }

  /** Every corner lift since the last corner launch, never pruned. */
  function FullTaps(ranges: map<Int32, Range>, bs: seq<Batch>): seq<real> {
    if bs == [] then []
    else
      var (before, b) := (bs[..|bs| - 1], bs[|bs| - 1]);
      var w := After(ranges, before);
      if CornerFires(w, ranges, b) then [] else FullTaps(ranges, before) + NewTaps(w, ranges, b)
  }

  lemma {:induction false} RecentConcat(a: seq<real>, b: seq<real>, now: real)
    ensures Recent(a + b, now) == Recent(a, now) + Recent(b, now)
  {
    if b == [] {
      assert a + b == a;
    } else {
      RecentConcat(a, b[..|b| - 1], now);
      assert (a + b)[..|a + b| - 1] == a + b[..|b| - 1];
    }
  }

  /** Pruning at an earlier moment forgets nothing that is still recent. */
  lemma {:induction false} RecentOfRecent(times: seq<real>, earlier: real, now: real)
    requires earlier <= now
    ensures Recent(Recent(times, earlier), now) == Recent(times, now)
  {
    if times != [] {
      var before, last := times[..|times| - 1], times[|times| - 1];
      RecentOfRecent(before, earlier, now);
      if earlier - last <= CORNER_WINDOW {
        RecentConcat(Recent(before, earlier), [last], now);
        assert [last][..0] == [];
      } else {
        assert Recent(times, earlier) == Recent(before, earlier);
      }
    }
  }

  /** Before a corner launch empties it, the pruned list is the full one filtered. */
  lemma {:induction false} TappedIsRecent(ranges: map<Int32, Range>, before: seq<Batch>, b: Batch)
    requires Monotonic(before + [b])
    decreases |before| + 1, 0
    ensures
      var w := After(ranges, before);
      Tapped(w, ranges, b) == Recent(FullTaps(ranges, before) + NewTaps(w, ranges, b), b.now)
  {
    var w := After(ranges, before);
    RecentConcat(w.taps, NewTaps(w, ranges, b), b.now);
    RecentConcat(FullTaps(ranges, before), NewTaps(w, ranges, b), b.now);
    if before != [] {
      assert (before + [b])[..|before|] == before;
      PrunedTapsAreRecent(ranges, before);
      var last := before[|before| - 1];
      assert (before + [b])[|before| - 1] == last && (before + [b])[|before|] == b;
      RecentOfRecent(FullTaps(ranges, before), last.now, b.now);
    }
  }

  /** At each step the pruned list of taps is the full list since the last corner launch,
      filtered to the last four seconds. */
  lemma {:induction false} PrunedTapsAreRecent(ranges: map<Int32, Range>, bs: seq<Batch>)
    requires bs != [] && Monotonic(bs)
    ensures After(ranges, bs).taps == Recent(FullTaps(ranges, bs), bs[|bs| - 1].now)
    decreases |bs|, 1
  {
    var before, b := bs[..|bs| - 1], bs[|bs| - 1];
    assert before + [b] == bs;
    TappedIsRecent(ranges, before, b);
  }

  /** A corner launch happens exactly when, cooldown permitting, five corner lifts since the
      last one fall in the last four seconds. */
  lemma CornerLaunchExactly(ranges: map<Int32, Range>, bs: seq<Batch>, n: nat)
    requires n < |bs| && Monotonic(bs[..n] + [bs[n]])
    ensures
      var w := After(ranges, bs[..n]);
      CornerFires(w, ranges, bs[n]) <==>
        |Recent(FullTaps(ranges, bs[..n]) + NewTaps(w, ranges, bs[n]), bs[n].now)| >= 5
        && bs[n].now - w.lastTrigger >= 5.0
  {
    TappedIsRecent(ranges, bs[..n], bs[n]);
  }

  /** The times of all launches, by either gesture. */
  function Launches(ranges: map<Int32, Range>, bs: seq<Batch>): seq<real> {
    if bs == [] then []
    else
      var (before, b) := (bs[..|bs| - 1], bs[|bs| - 1]);
      Launches(ranges, before) + if Turn(After(ranges, before), ranges, b).1 != NoLaunch then [b.now] else []
  }

  lemma LaunchNeeds(w: Watch, ranges: map<Int32, Range>, b: Batch)
    ensures
      var (w', launch) := Turn(w, ranges, b);
      if launch == NoLaunch then w'.lastTrigger == w.lastTrigger
      else w'.lastTrigger == b.now && b.now - w.lastTrigger >= COOLDOWN_SECONDS
  {
  }

  ghost predicate Spaced(times: seq<real>, latest: real) {
    && (forall i | 0 < i < |times| :: times[i] - times[i - 1] >= 5.0)
    && (times != [] ==> latest == times[|times| - 1])
  }

  lemma SpacedAppend(times: seq<real>, latest: real, now: real)
    requires Spaced(times, latest) && now - latest >= COOLDOWN_SECONDS
    ensures Spaced(times + [now], now)
  {
  }

  /** What one more batch does to the launches and to the time of the last one. */
  lemma LaunchesStep(ranges: map<Int32, Range>, bs: seq<Batch>, before: seq<real>, latest: real)
    requires bs != [] && before == Launches(ranges, bs[..|bs| - 1])
    requires latest == After(ranges, bs[..|bs| - 1]).lastTrigger
    ensures
      var (times, trigger, now) := (Launches(ranges, bs), After(ranges, bs).lastTrigger, bs[|bs| - 1].now);
      || (times == before && trigger == latest)
      || (times == before + [now] && trigger == now && now - latest >= COOLDOWN_SECONDS)
  {
    LaunchNeeds(After(ranges, bs[..|bs| - 1]), ranges, bs[|bs| - 1]);
  }

  lemma SpacedStep(before: seq<real>, latest: real, times: seq<real>, trigger: real, now: real)
    requires Spaced(before, latest)
    requires (times == before && trigger == latest)
             || (times == before + [now] && trigger == now && now - latest >= COOLDOWN_SECONDS)
    ensures Spaced(times, trigger)
  {
    if times != before {
      SpacedAppend(before, latest, now);
    }
  }

  /** Overlay launches by either gesture are at least five seconds apart. */
  lemma {:induction false} LaunchesAreSpaced(ranges: map<Int32, Range>, bs: seq<Batch>)
    ensures Spaced(Launches(ranges, bs), After(ranges, bs).lastTrigger)
  {
    if bs != [] {
      var before, latest := Launches(ranges, bs[..|bs| - 1]), After(ranges, bs[..|bs| - 1]).lastTrigger;
      LaunchesAreSpaced(ranges, bs[..|bs| - 1]);
      LaunchesStep(ranges, bs, before, latest);
      SpacedStep(before, latest, Launches(ranges, bs), After(ranges, bs).lastTrigger, bs[|bs| - 1].now);
    }
  }

  function ActiveAt(ranges: map<Int32, Range>, bs: seq<Batch>, k: nat): nat
    requires k < |bs|
  {
    |After(ranges, bs[..k + 1]).hands.down|
  }

  ghost predicate HeldFrom(ranges: map<Int32, Range>, bs: seq<Batch>, m: int, n: int) {
    0 <= m <= n < |bs| && forall k | m <= k <= n :: ActiveAt(ranges, bs, k) >= 5
  }

  lemma {:induction false} HeldSinceIsHistory(ranges: map<Int32, Range>, bs: seq<Batch>, n: nat) returns (m: nat)
    requires n < |bs| && After(ranges, bs[..n + 1]).heldSince.Some?
    ensures HeldFrom(ranges, bs, m, n) && bs[m].now == After(ranges, bs[..n + 1]).heldSince.value
  {
    assert bs[..n + 1][..n] == bs[..n];
    if n > 0 && After(ranges, bs[..n]).heldSince.Some? {
      m := HeldSinceIsHistory(ranges, bs, n - 1);
    } else {
      m := n;
    }
  }

  lemma HoldNeeds(w: Watch, ranges: map<Int32, Range>, b: Batch)
    requires Turn(w, ranges, b).1 == FingerHold
    ensures |Turn(w, ranges, b).0.hands.down| >= HOLD_FINGERS
    ensures w.heldSince.Some? && b.now - w.heldSince.value >= HOLD_SECONDS
  {
  }

  lemma AfterStep(ranges: map<Int32, Range>, bs: seq<Batch>, n: nat)
    requires n < |bs|
    ensures After(ranges, bs[..n + 1]) == Turn(After(ranges, bs[..n]), ranges, bs[n]).0
  {
    assert bs[..n + 1][..n] == bs[..n];
  }

  lemma NothingHeldAtStart(ranges: map<Int32, Range>, bs: seq<Batch>)
    ensures After(ranges, bs[..0]).heldSince.None?
  {
    assert bs[..0] == [];
  }

  lemma HeldLonger(ranges: map<Int32, Range>, bs: seq<Batch>, m: int, n: nat)
    requires n < |bs| && HeldFrom(ranges, bs, m, n - 1) && ActiveAt(ranges, bs, n) >= HOLD_FINGERS
    ensures HeldFrom(ranges, bs, m, n)
  {
  }

  /** A hold launch means five fingers were down at every step for at least two seconds. */
  lemma HoldLaunchIsEarned(ranges: map<Int32, Range>, bs: seq<Batch>, n: nat) returns (m: nat)
    requires n < |bs| && LaunchAt(ranges, bs, n) == FingerHold
    ensures m < n && HeldFrom(ranges, bs, m, n) && bs[n].now - bs[m].now >= 2.0
  {
    HoldNeeds(After(ranges, bs[..n]), ranges, bs[n]);
    AfterStep(ranges, bs, n);
    NothingHeldAtStart(ranges, bs);
    m := HeldSinceIsHistory(ranges, bs, n - 1);
    HeldLonger(ranges, bs, m, n);
  }
}
