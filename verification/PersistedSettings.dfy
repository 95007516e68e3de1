/** What display settings are on disk, over runs in which the brightness may be changed at any
    time: exactly when they are settings the operator never agreed to. */
module PersistedSettings {
  import opened Basics
  import opened DisplayRevert

  predicate BrightnessOnly(body: Request) {
    body.transform.None? && body.mode.None?
  }

  /** Everything works, and no rotation or mode is applied while a change is pending; the
      brightness may be. */
  predicate Careful(d: Desk, s: Step) {
    && Possible(d, s) && s.dev == ALL_WORK
    && (s.Apply? ==> Restorable(d.live, s.body) && (BrightnessOnly(s.body) || d.pending.None?))
  }

  ghost predicate AllCareful(d: Desk, steps: seq<Step>) {
    forall i | 0 <= i < |steps| :: Careful(After(d, steps[..i]), steps[i])
  }

  /** The steps that write the settings file. */
  predicate Saves(d: Desk, s: Step) {
    (s.Confirm? && d.pending.Some?) || (s.Apply? && BrightnessOnly(s.body))
  }

  /** What was live when the file was last written, and the change still unconfirmed then. */
  datatype Save = Save(live: Live, unconfirmed: Option<Revert>)

  function LastSave(d: Desk, steps: seq<Step>): Option<Save> {
    if steps == [] then None
    else
      var (before, s) := (steps[..|steps| - 1], steps[|steps| - 1]);
      var now := After(d, before);
      if Saves(now, s) then Some(Save(now.live, if s.Apply? then now.pending else None)) else LastSave(d, before)
  }

  lemma CarefulStaysFaithful(d: Desk, s: Step, agreed: Live)
    requires Faithful(d, agreed) && Careful(d, s)
    ensures Faithful(Next(d, s), if s.Confirm? && d.pending.Some? then d.live else agreed)
    ensures Next(d, s).persisted == if Saves(d, s) then Some(Snapshot(d.live)) else d.persisted
  {
    if s.Apply? && BrightnessOnly(s.body) {
      assert Next(d, s) == d.(persisted := Some(Snapshot(d.live)));
    } else {
      StepStaysFaithful(d, s, agreed);
    }
  }

  /** The settings file against the settings agreed to. */
  ghost predicate Traced(start: Desk, end: Desk, agreed: Live, save: Option<Save>) {
    && end.persisted == (if save.None? then start.persisted else Some(Snapshot(save.value.live)))
    && (save.None? ==> agreed == start.live)
    && (save.Some? ==> agreed == if save.value.unconfirmed.None? then save.value.live
                                 else Restore(save.value.live, save.value.unconfirmed.value, ALL_WORK))
  }

  lemma {:induction false} SavesAreTraced(d: Desk, steps: seq<Step>)
    requires d.pending.None? && Tokens(d) && AllCareful(d, steps)
    ensures Faithful(After(d, steps), Agreed(d, steps))
    ensures Traced(d, After(d, steps), Agreed(d, steps), LastSave(d, steps))
  {
    if steps != [] {
      var before, s := steps[..|steps| - 1], steps[|steps| - 1];
      forall i | 0 <= i < |before| ensures Careful(After(d, before[..i]), before[i]) {
        assert before[..i] == steps[..i];
      }
      SavesAreTraced(d, before);
      CarefulStaysFaithful(After(d, before), s, Agreed(d, before));
    }
  }

  /** The settings on disk are the agreed ones, or still those from the start, exactly unless the
      file was last written by a brightness change while another change was pending, and that
      change makes a difference to the file. */
  lemma DiskIsAgreedExactly(d: Desk, steps: seq<Step>)
    requires d.pending.None? && Tokens(d) && AllCareful(d, steps)
    ensures
      var (end, agreed, save) := (After(d, steps), Agreed(d, steps), LastSave(d, steps));
      (if save.None? then end.persisted == d.persisted && agreed == d.live
       else end.persisted == Some(Snapshot(agreed)))
      <==>
      (save.Some? && save.value.unconfirmed.Some? ==>
         Snapshot(Restore(save.value.live, save.value.unconfirmed.value, ALL_WORK)) == Snapshot(save.value.live))
  {
    SavesAreTraced(d, steps);
  }

  /** Such a file outlives the revert: after a change, a brightness change and the change's own
      timer, the settings are back where they were and the disk holds what was undone. */
  lemma UnconfirmedOutlivesItsRevert(d: Desk, change: Request, brightness: int)
    requires d.pending.None? && Tokens(d) && Restorable(d.live, change) && !BrightnessOnly(change)
    ensures
      var d1 := Next(d, Apply(change, ALL_WORK));
      var d2 := Next(d1, Apply(Request(change.output, None, None, Some(brightness)), ALL_WORK));
      d1.pending.Some? && d1.pending.value in d2.timers
      && var d3 := Next(d2, TimerFires(d1.pending.value, ALL_WORK));
         d3.live == d.live && d3.pending.None? && d3.persisted == Some(Snapshot(d1.live))
  {
    ApplyIsRestorable(d, change);
  }
}
