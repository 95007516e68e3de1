/** The display-settings protocol: apply, then confirm, revert or let a timer revert.
    Handlers run without interruption, so each is one step; outstanding timers are a set. */
module DisplayRevert {
  import opened Basics

  /** One output as the compositor reports it. */
  datatype Out = Out(enabled: bool, transform: string, mode: string)

  type Live = map<string, Out>

  datatype Saved = Saved(transform: string, mode: string)

  /** A captured state to go back to; the pending one and the ones timers carry. */
  datatype Revert = Revert(token: nat, output: string, prevTransform: string, prevMode: string)

  datatype Desk = Desk(live: Live, pending: Option<Revert>, timers: set<Revert>, nextToken: nat,
                       persisted: Option<map<string, Saved>>)

  datatype Request = Request(output: string, transform: Option<string>, mode: Option<string>, brightness: Option<int>)

  /** What the device does during one step: whether listing outputs, rotating, setting a
      mode, setting brightness and saving the snapshot work. */
  datatype Dev = Dev(lists: bool, rotates: bool, modes: bool, brightens: bool, saves: bool)

  const ALL_WORK := Dev(true, true, true, true, true)

  // ---- The device ----

  predicate Settable(transform: string) {
    transform == "normal" || transform == "90" || transform == "180" || transform == "270"
  }

  predicate SettableMode(mode: string) {
    mode != "" && |mode| <= 32
  }

  function SetRotation(live: Live, output: string, transform: string, works: bool): (Live, bool) {
    if !Settable(transform) || !works then (live, false)
    else (if output in live then live[output := live[output].(transform := transform)] else live, true)
  }

  function SetMode(live: Live, output: string, mode: string, works: bool): (Live, bool) {
    if !SettableMode(mode) || !works then (live, false)
    else (if output in live then live[output := live[output].(mode := mode)] else live, true)
  }

  function Restore(live: Live, r: Revert, dev: Dev): Live {
    var turned := if r.prevTransform != "" then SetRotation(live, r.output, r.prevTransform, dev.rotates).0 else live;
    if r.prevMode != "" then SetMode(turned, r.output, r.prevMode, dev.modes).0 else turned
  }

  function Snapshot(live: Live): map<string, Saved> {
    map n | n in live && live[n].enabled && n != "" :: Saved(live[n].transform, live[n].mode)
  }

  /** `persist_settings`: an unreadable output list is saved as no outputs at all. */
  function Persist(d: Desk, dev: Dev): Desk {
    if dev.saves then d.(persisted := Some(if dev.lists then Snapshot(d.live) else map[])) else d
  }

  // ---- The handlers ----

  datatype Step =
    | Apply(body: Request, dev: Dev)
    | Confirm(dev: Dev)
    | RevertNow(dev: Dev)
    | TimerFires(timer: Revert, dev: Dev)

  /** The settings after the requested changes, up to the first that fails. */
  function Change(live: Live, body: Request, dev: Dev): (Live, bool) {
    var (l1, ok1) := if body.transform.Some? then SetRotation(live, body.output, body.transform.value, dev.rotates)
                     else (live, true);
    if !ok1 then (l1, false)
    else
      var (l2, ok2) := if body.mode.Some? then SetMode(l1, body.output, body.mode.value, dev.modes) else (l1, true);
      (l2, ok2 && (body.brightness.Some? ==> dev.brightens))
  }

  function Captured(d: Desk, body: Request, dev: Dev): Revert {
    if dev.lists && body.output in d.live
    then Revert(d.nextToken, body.output, d.live[body.output].transform, d.live[body.output].mode)
    else Revert(d.nextToken, body.output, "", "")
  }

  function Next(d: Desk, s: Step): Desk {
    match s
    case Apply(body, dev) =>
      var (live, ok) := Change(d.live, body, dev);
      var d' := d.(live := live);
      if !ok then d'
      else if body.transform.None? && body.mode.None? then Persist(d', dev)
      else
        var r := Captured(d, body, dev);
        d'.(pending := Some(r), timers := d.timers + {r}, nextToken := d.nextToken + 1)
    case Confirm(dev) =>
      if d.pending.None? then d else Persist(d.(pending := None), dev)
    case RevertNow(dev) =>
      if d.pending.None? then d else d.(live := Restore(d.live, d.pending.value, dev), pending := None)
    case TimerFires(timer, dev) =>
      var d' := d.(timers := d.timers - {timer});
      if CanAct(d, timer) then d'.(live := Restore(d.live, timer, dev), pending := None) else d'
  }

  predicate CanAct(d: Desk, timer: Revert) {
    timer in d.timers && d.pending.Some? && d.pending.value.token == timer.token
  }

  class DisplayAdmin {
    var live: Live
    var pending: Option<Revert>
    var timers: set<Revert>
    var nextToken: nat
    var persisted: Option<map<string, Saved>>

    constructor (live: Live, persisted: Option<map<string, Saved>>)
      ensures Now() == Desk(live, None, {}, 0, persisted)
    {
      this.live, pending, timers, nextToken, this.persisted := live, None, {}, 0, persisted;
    }

    function Now(): Desk
      reads this
    {
      Desk(live, pending, timers, nextToken, persisted)
    }

    method PersistSettings(dev: Dev)
      modifies this
      ensures Now() == Persist(old(Now()), dev)
    {
      if dev.saves {
        persisted := Some(if dev.lists then Snapshot(live) else map[]);
      }
    }

    method RestoreCaptured(r: Revert, dev: Dev)
      modifies this
      ensures Now() == old(Now()).(live := Restore(old(live), r, dev))
    {
      if r.prevTransform != "" {
        live := SetRotation(live, r.output, r.prevTransform, dev.rotates).0;
      }
      if r.prevMode != "" {
        live := SetMode(live, r.output, r.prevMode, dev.modes).0;
      }
    }

    method AdminApply(body: Request, dev: Dev) returns (ok: bool)
      modifies this
      ensures Now() == Next(old(Now()), Apply(body, dev)) && ok == Change(old(live), body, dev).1
    {
      var revertNeeded := body.transform.Some? || body.mode.Some?;
      var prevTransform, prevMode := "", "";
      if revertNeeded && dev.lists && body.output in live {
        prevTransform, prevMode := live[body.output].transform, live[body.output].mode;
      }
      ok := true;
      if body.transform.Some? {
        var r := SetRotation(live, body.output, body.transform.value, dev.rotates);
        live, ok := r.0, r.1;
        if !ok {
          return;
        }
      }
      if body.mode.Some? {
        var r := SetMode(live, body.output, body.mode.value, dev.modes);
        live, ok := r.0, r.1;
        if !ok {
          return;
        }
      }
      if body.brightness.Some? && !dev.brightens {
        return false;
      }
      if revertNeeded {
        var r := Revert(nextToken, body.output, prevTransform, prevMode);
        nextToken := nextToken + 1;
        pending := Some(r);
        timers := timers + {r};
      } else {
        PersistSettings(dev);
      }
    }

    method AdminConfirm(dev: Dev) returns (wasPending: bool)
      modifies this
      ensures Now() == Next(old(Now()), Confirm(dev)) && wasPending == old(pending).Some?
    {
      wasPending := pending.Some?;
      pending := None;
      if wasPending {
        PersistSettings(dev);
      }
    }

    method AdminRevertNow(dev: Dev) returns (ok: bool)
      modifies this
      ensures Now() == Next(old(Now()), RevertNow(dev)) && ok == old(pending).Some?
    {
      ok := pending.Some?;
      if ok {
        var p := pending.value;
        pending := None;
        RestoreCaptured(p, dev);
      }
    }

    method AutoRevert(timer: Revert, dev: Dev)
      modifies this
      ensures timer in old(timers) ==> Now() == Next(old(Now()), TimerFires(timer, dev))
    {
      timers := timers - {timer};
      if pending.None? || pending.value.token != timer.token {
        return;
      }
      RestoreCaptured(timer, dev);
      pending := None;
    }
  }

  // ---- Any interleaving ----

  /** Steps that can happen: only an outstanding timer fires. */
  predicate Possible(d: Desk, s: Step) {
    s.TimerFires? ==> s.timer in d.timers
  }

  function After(d: Desk, steps: seq<Step>): Desk {
    if steps == [] then d else Next(After(d, steps[..|steps| - 1]), steps[|steps| - 1])
  }

  ghost predicate AllPossible(d: Desk, steps: seq<Step>) {
    forall i | 0 <= i < |steps| :: Possible(After(d, steps[..i]), steps[i])
  }

  /** Tokens are never reused, and a pending change still has its own timer. */
  ghost predicate Tokens(d: Desk) {
    && (forall t | t in d.timers :: t.token < d.nextToken)
    && (forall t, u | t in d.timers && u in d.timers && t.token == u.token :: t == u)
    && (d.pending.Some? ==> d.pending.value in d.timers)
  }

  lemma StepKeepsTokens(d: Desk, s: Step)
    requires Tokens(d) && Possible(d, s)
    ensures Tokens(Next(d, s)) && Next(d, s).nextToken >= d.nextToken
  {
  }

  lemma {:induction false} RunKeepsTokens(d: Desk, steps: seq<Step>)
    requires Tokens(d) && AllPossible(d, steps)
    ensures Tokens(After(d, steps))
  {
    if steps != [] {
      var before := steps[..|steps| - 1];
      forall i | 0 <= i < |before| ensures Possible(After(d, before[..i]), before[i]) {
        assert before[..i] == steps[..i];
      }
      RunKeepsTokens(d, before);
      StepKeepsTokens(After(d, before), steps[|steps| - 1]);
    }
  }

  /** Exactly one outstanding timer can act while a change is pending, and it carries what
      that change captured; none can otherwise. */
  lemma {:induction false} OneTimerCanAct(d: Desk, steps: seq<Step>)
    requires Tokens(d) && AllPossible(d, steps)
    ensures
      var end := After(d, steps);
      forall t :: CanAct(end, t) <==> end.pending == Some(t)
  {
    RunKeepsTokens(d, steps);
  }

  /** A timer that cannot act and whose token has been used. */
  predicate Dead(d: Desk, t: Revert) {
    t.token < d.nextToken && !(d.pending.Some? && d.pending.value.token == t.token)
  }

  lemma {:induction false} DeadStaysDead(d: Desk, steps: seq<Step>, t: Revert)
    requires Dead(d, t)
    ensures Dead(After(d, steps), t)
  {
    if steps != [] {
      DeadStaysDead(d, steps[..|steps| - 1], t);
    }
  }

  /** After a confirm or a revert-now no timer scheduled before it ever acts, whatever
      follows: when it fires it changes neither settings nor a later pending change. */
  lemma NoTimerActsAfterASettlement(d: Desk, settle: Step, steps: seq<Step>, t: Revert, dev: Dev)
    requires Tokens(d) && t in d.timers && (settle.Confirm? || settle.RevertNow?)
    ensures
      var later := After(Next(d, settle), steps);
      !CanAct(later, t) && Next(later, TimerFires(t, dev)) == later.(timers := later.timers - {t})
  {
    DeadStaysDead(Next(d, settle), steps, t);
  }

  // ---- Disciplined runs ----

  /** What the request sets, and what that would overwrite, can both be set. */
  predicate Restorable(live: Live, body: Request) {
    && (body.transform.Some? ==>
          Settable(body.transform.value) && body.output in live && Settable(live[body.output].transform))
    && (body.mode.Some? ==>
          SettableMode(body.mode.value) && body.output in live && SettableMode(live[body.output].mode))
  }

  /** No apply while a change is pending, everything works, and what a change would
      overwrite can be set again. */
  predicate Disciplined(d: Desk, s: Step) {
    && Possible(d, s) && s.dev == ALL_WORK
    && (s.Apply? ==> d.pending.None? && Restorable(d.live, s.body))
  }

  ghost predicate AllDisciplined(d: Desk, steps: seq<Step>) {
    forall i | 0 <= i < |steps| :: Disciplined(After(d, steps[..i]), steps[i])
  }

  /** The settings the operator last agreed to: those at the start, then those live at each
      confirm of a pending change. */
  function Agreed(d: Desk, steps: seq<Step>): Live {
    if steps == [] then d.live
    else
      var (before, s) := (steps[..|steps| - 1], steps[|steps| - 1]);
      if s.Confirm? && After(d, before).pending.Some? then After(d, before).live else Agreed(d, before)
  }

  /** Nothing pending: the agreed settings are live. Pending: restoring what was captured
      brings them back exactly. Only agreed settings are ever persisted. */
  ghost predicate Faithful(d: Desk, agreed: Live) {
    && Tokens(d)
    && (d.pending.None? ==> d.live == agreed)
    && (d.pending.Some? ==> Restore(d.live, d.pending.value, ALL_WORK) == agreed)
  }

  lemma ApplyIsRestorable(d: Desk, body: Request)
    requires Restorable(d.live, body) && (body.transform.Some? || body.mode.Some?)
    ensures Change(d.live, body, ALL_WORK).1
    ensures Restore(Change(d.live, body, ALL_WORK).0, Captured(d, body, ALL_WORK), ALL_WORK) == d.live
  {
    var live := Change(d.live, body, ALL_WORK).0;
    var r := Captured(d, body, ALL_WORK);
    var back := Restore(live, r, ALL_WORK);
    assert body.output in d.live && live.Keys == d.live.Keys;
    assert back.Keys == d.live.Keys;
    assert back[body.output] == d.live[body.output];
  }

  lemma StepStaysFaithful(d: Desk, s: Step, agreed: Live)
    requires Faithful(d, agreed) && Disciplined(d, s)
    ensures Faithful(Next(d, s), if s.Confirm? && d.pending.Some? then d.live else agreed)
    ensures s.Confirm? && d.pending.Some? ==> Next(d, s).persisted == Some(Snapshot(d.live))
    ensures !(s.Confirm? && d.pending.Some?) ==>
              Next(d, s).persisted == d.persisted || Next(d, s).persisted == Some(Snapshot(agreed))
  {
    StepKeepsTokens(d, s);
    if s.Apply? && (s.body.transform.Some? || s.body.mode.Some?) {
      ApplyIsRestorable(d, s.body);
    }
  }

  /** In a disciplined run every rotation or mode change is either confirmed or undone
      exactly, and no unconfirmed setting is ever persisted: whenever nothing is pending
      the agreed settings are live, and what is persisted is what was persisted at the
      start or the agreed settings. */
  lemma {:induction false} UnconfirmedNeverSticks(d: Desk, steps: seq<Step>)
    requires d.pending.None? && Tokens(d) && AllDisciplined(d, steps)
    ensures
      var (end, agreed) := (After(d, steps), Agreed(d, steps));
      && Faithful(end, agreed)
      && (end.persisted == Some(Snapshot(agreed)) || (end.persisted == d.persisted && agreed == d.live))
  {
    if steps != [] {
      var before, s := steps[..|steps| - 1], steps[|steps| - 1];
      forall i | 0 <= i < |before| ensures Disciplined(After(d, before[..i]), before[i]) {
        assert before[..i] == steps[..i];
      }
      UnconfirmedNeverSticks(d, before);
      StepStaysFaithful(After(d, before), s, Agreed(d, before));
    }
  }

  // ---- Why the discipline is needed ----

  /** The rotation, then the mode, that an apply gets as far as setting. */
  predicate Turns(body: Request, dev: Dev) {
    body.transform.Some? && Settable(body.transform.value) && dev.rotates
  }

  predicate Switches(body: Request, dev: Dev) {
    && body.mode.Some? && SettableMode(body.mode.value) && dev.modes
    && (body.transform.Some? ==> Turns(body, dev))
  }

  /** Whatever took effect was in force already. */
  predicate Unmoved(live: Live, body: Request, dev: Dev) {
    body.output in live ==>
      ((Turns(body, dev) ==> body.transform.value == live[body.output].transform)
       && (Switches(body, dev) ==> body.mode.value == live[body.output].mode))
  }

  lemma ChangeExactly(live: Live, body: Request, dev: Dev)
    ensures Change(live, body, dev).1 <==>
            (body.transform.Some? ==> Turns(body, dev)) && (body.mode.Some? ==> Switches(body, dev))
            && (body.brightness.Some? ==> dev.brightens)
    ensures Change(live, body, dev).0 == live <==> Unmoved(live, body, dev)
  {
    var after := Change(live, body, dev).0;
    assert after.Keys == live.Keys;
    if Unmoved(live, body, dev) {
      assert forall n | n in live :: after[n] == live[n];
    } else {
      assert after[body.output] != live[body.output];
    }
  }

  /** An apply answered with an error schedules, settles and saves nothing, and it leaves the
      settings as they were exactly when nothing that took effect before the failure differs
      from what was live. */
  lemma ErrorsChangeNothingExactlyWhen(d: Desk, body: Request, dev: Dev)
    requires !Change(d.live, body, dev).1
    ensures
      var d' := Next(d, Apply(body, dev));
      && d' == d.(live := d'.live)
      && (d' == d <==> Unmoved(d.live, body, dev))
  {
    ChangeExactly(d.live, body, dev);
  }

  /** So a mode that fails after a rotation that worked strands the rotation: nothing is
      pending for it and no timer will undo it. */
  lemma FailedModeStrandsRotation(d: Desk, body: Request, dev: Dev)
    requires body.transform.Some? && Settable(body.transform.value) && dev.rotates
    requires body.mode.Some? && (!SettableMode(body.mode.value) || !dev.modes)
    ensures Next(d, Apply(body, dev))
         == d.(live := SetRotation(d.live, body.output, body.transform.value, true).0)
    ensures Next(d, Apply(body, dev)) == d <==>
            body.output in d.live ==> d.live[body.output].transform == body.transform.value
  {
    ErrorsChangeNothingExactlyWhen(d, body, dev);
  }

  /** And a brightness that fails strands whatever rotation and mode came with it. */
  lemma FailedBrightnessStrandsBoth(d: Desk, body: Request, dev: Dev)
    requires Restorable(d.live, body) && dev.rotates && dev.modes && body.brightness.Some? && !dev.brightens
    requires body.output in d.live
    ensures
      var d' := Next(d, Apply(body, dev));
      && d' == d.(live := d'.live) && body.output in d'.live
      && (body.transform.Some? ==> d'.live[body.output].transform == body.transform.value)
      && (body.mode.Some? ==> d'.live[body.output].mode == body.mode.value)
  {
    ErrorsChangeNothingExactlyWhen(d, body, dev);
  }

  /** Exactly which applies write the snapshot: those that change neither rotation nor mode.
      While a change is pending, that snapshot holds the unconfirmed settings. */
  lemma WhenApplyPersists(d: Desk, body: Request, dev: Dev)
    requires dev.lists && dev.saves
    ensures
      var d' := Next(d, Apply(body, dev));
      var silent := body.transform.None? && body.mode.None? && (body.brightness.Some? ==> dev.brightens);
      && (silent ==> d'.persisted == Some(Snapshot(d.live)) && d'.pending == d.pending)
      && (!silent ==> d'.persisted == d.persisted)
  {
  }

  /** What the request replaces by something else could be set again. */
  predicate CanGoBack(live: Live, body: Request) {
    body.output in live ==>
      (var o := live[body.output];
       && (body.transform.Some? && body.transform.value != o.transform ==> Settable(o.transform))
       && (body.mode.Some? && body.mode.value != o.mode ==> SettableMode(o.mode)))
  }

  /** Whatever was pending before, a successful apply followed by a revert goes back to what
      was live at that apply exactly when what it replaced can be set again. */
  lemma RevertUndoesOneApply(d: Desk, body: Request)
    requires Change(d.live, body, ALL_WORK).1 && (body.transform.Some? || body.mode.Some?)
    ensures
      var reverted := Next(Next(d, Apply(body, ALL_WORK)), RevertNow(ALL_WORK));
      (reverted.live == d.live <==> CanGoBack(d.live, body)) && reverted.pending.None?
  {
    ChangeExactly(d.live, body, ALL_WORK);
    var live := Change(d.live, body, ALL_WORK).0;
    var back := Restore(live, Captured(d, body, ALL_WORK), ALL_WORK);
    assert live.Keys == d.live.Keys && back.Keys == d.live.Keys;
    assert forall n | n in d.live && n != body.output :: back[n] == d.live[n];
    if CanGoBack(d.live, body) {
      assert back == d.live;
    } else {
      assert back[body.output] != d.live[body.output];
    }
  }

  /** So after two applies that each can be undone a revert restores the settings from before
      both exactly when the first one changed nothing, on whatever outputs the two were. */
  lemma OverlappingApplyForgetsTheOriginal(d: Desk, first: Request, second: Request)
    requires Change(d.live, first, ALL_WORK).1 && (first.transform.Some? || first.mode.Some?)
    requires Change(Change(d.live, first, ALL_WORK).0, second, ALL_WORK).1
    requires second.transform.Some? || second.mode.Some?
    requires CanGoBack(Change(d.live, first, ALL_WORK).0, second)
    ensures
      var d1 := Next(d, Apply(first, ALL_WORK));
      var d3 := Next(Next(d1, Apply(second, ALL_WORK)), RevertNow(ALL_WORK));
      && d3.live == d1.live && d3.pending.None?
      && (d3.live == d.live <==> Unmoved(d.live, first, ALL_WORK))
  {
    ChangeExactly(d.live, first, ALL_WORK);
    RevertUndoesOneApply(Next(d, Apply(first, ALL_WORK)), second);
  }
}
