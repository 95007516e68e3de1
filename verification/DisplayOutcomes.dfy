/** The display handlers in the operator's terms: what is asked for, what the outputs show
    afterwards, what is kept to go back to and what is saved. */
module DisplayOutcomes {
  import opened Basics
  import opened DisplayRevert

  /** The rotation asked for, if any, takes effect. */
  predicate Rotated(body: Request, dev: Dev) {
    body.transform.Some? ==>
      && dev.rotates
      && (|| body.transform.value == "normal" || body.transform.value == "90"
          || body.transform.value == "180" || body.transform.value == "270")
  }

  /** So does the mode, which is tried only after the rotation. */
  predicate ModeSet(body: Request, dev: Dev) {
    Rotated(body, dev) && (body.mode.Some? ==> dev.modes && 1 <= |body.mode.value| <= 32)
  }

  predicate Succeeds(body: Request, dev: Dev) {
    ModeSet(body, dev) && (body.brightness.Some? ==> dev.brightens)
  }

  /** What one output shows once a rotation and a mode are set on it. */
  function Shows(o: Out, transform: Option<string>, mode: Option<string>): Out {
    Out(o.enabled, if transform.Some? then transform.value else o.transform,
        if mode.Some? then mode.value else o.mode)
  }

  /** Only this output changes, and that is how. */
  ghost predicate OnlyChanges(before: Live, after: Live, output: string, transform: Option<string>,
                              mode: Option<string>) {
    && after.Keys == before.Keys
    && (forall n | n in before && n != output :: after[n] == before[n])
    && (output in before ==> after[output] == Shows(before[output], transform, mode))
  }

  /** An apply succeeds exactly if each thing it asks for works, and changes the output it names
      alone, up to the first thing that fails. */
  lemma ApplyChanges(live: Live, body: Request, dev: Dev)
    ensures
      var (after, ok) := Change(live, body, dev);
      && (ok <==> Succeeds(body, dev))
      && OnlyChanges(live, after, body.output, if Rotated(body, dev) then body.transform else None,
                     if ModeSet(body, dev) then body.mode else None)
  {
  }

  /** The saved settings are those of every enabled output with a name. */
  ghost predicate Records(saved: map<string, Saved>, live: Live) {
    && (forall n :: n in saved <==> n in live && live[n].enabled && n != "")
    && (forall n | n in saved :: saved[n].transform == live[n].transform && saved[n].mode == live[n].mode)
  }

  /** The settings file after a save: as before if it cannot be written, and empty if the outputs
      cannot be read. */
  ghost predicate SavedAs(before: Option<map<string, Saved>>, after: Option<map<string, Saved>>, live: Live, dev: Dev) {
    if !dev.saves then after == before
    else after.Some? && if dev.lists then Records(after.value, live) else after.value == map[]
  }

  /** A failed apply leaves nothing to go back to; one that rotates or sets a mode keeps what the
      output showed before, under a new token, for the operator and for one timer; any other one
      saves the settings. */
  lemma ApplyKeepsTheWayBack(d: Desk, body: Request, dev: Dev)
    ensures
      var d' := Next(d, Apply(body, dev));
      if !Succeeds(body, dev) then d' == d.(live := d'.live)
      else if body.transform.None? && body.mode.None? then
        d' == d.(persisted := d'.persisted) && SavedAs(d.persisted, d'.persisted, d.live, dev)
      else
        var seen := dev.lists && body.output in d.live;
        && d'.pending.Some?
        && d' == d.(live := d'.live, pending := d'.pending, timers := d.timers + {d'.pending.value},
                    nextToken := d.nextToken + 1)
        && d'.pending.value.token == d.nextToken && d'.pending.value.output == body.output
        && d'.pending.value.prevTransform == (if seen then d.live[body.output].transform else "")
        && d'.pending.value.prevMode == if seen then d.live[body.output].mode else ""
  {
    ApplyChanges(d.live, body, dev);
  }

  /** A confirm settles the pending change and saves what the outputs show. */
  lemma ConfirmSaves(d: Desk, dev: Dev)
    ensures
      var d' := Next(d, Confirm(dev));
      if d.pending.None? then d' == d
      else d' == d.(pending := None, persisted := d'.persisted) && SavedAs(d.persisted, d'.persisted, d.live, dev)
  {
  }

  /** Going back sets what was kept, each part if it is known, valid and works. */
  lemma RestoreGoesBack(live: Live, r: Revert, dev: Dev)
    ensures
      var turns := Rotated(Request(r.output, Some(r.prevTransform), None, None), dev);
      var switches := ModeSet(Request(r.output, None, Some(r.prevMode), None), dev);
      OnlyChanges(live, Restore(live, r, dev), r.output, if turns then Some(r.prevTransform) else None,
                  if switches then Some(r.prevMode) else None)
  {
  }

  /** The operator goes back to what the pending change replaced; a timer does exactly if its own
      change is the pending one. Either settles it, and neither saves anything. */
  lemma WhoGoesBack(d: Desk, timer: Revert, dev: Dev)
    requires Tokens(d) && timer in d.timers
    ensures
      var (now, fired) := (Next(d, RevertNow(dev)), Next(d, TimerFires(timer, dev)));
      && (d.pending.None? ==> now == d)
      && (d.pending.Some? ==> now == d.(live := Restore(d.live, d.pending.value, dev), pending := None))
      && fired == (if d.pending == Some(timer) then now else d).(timers := d.timers - {timer})
  {
  }

  /** What a disciplined run leaves in the settings file: what was there at the start, or exactly
      the agreed settings of the enabled outputs. */
  lemma OnlyAgreedSettingsAreSaved(d: Desk, steps: seq<Step>)
    requires d.pending.None? && Tokens(d) && AllDisciplined(d, steps)
    ensures
      var (end, agreed) := (After(d, steps), Agreed(d, steps));
      || (end.persisted == d.persisted && agreed == d.live)
      || (end.persisted.Some? && Records(end.persisted.value, agreed))
  {
    UnconfirmedNeverSticks(d, steps);
  }
}
