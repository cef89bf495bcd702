/** Every boot and every request keeps a volume consistent, wherever it is cut, and every start is rightful. */
module VersionProof {
  import opened VersionWorld
  import opened VersionHistory
  import opened VersionBoot

  // ----- what holds between the steps of a boot -----------------------------------------------

  /** The volume as it is, with ``s`` in ha.json. */
  ghost function Verdict(w: World, told: History, s: HaState): Judgement {
    if w.Judge(s) == Consistent && told.Tell(s, w.schedule, w.venvs) == Consistent then Consistent else Inconsistent
  }

  /** The boot can end here. */
  ghost predicate Durable(x: Work) {
    Verdict(x.world, x.told, x.saved) == Consistent
  }

  /** What the boot works on, whatever the crash counter says. */
  ghost predicate Sound(x: Work) {
    x.world.Judge(x.state.Calm()) == Consistent && x.told.Tell(x.state, x.world.schedule, x.world.venvs) == Consistent
  }

  ghost predicate Awake(x: Work) {
    && Durable(x) && x.state == x.saved.Seeded() && Verdict(x.world, x.told, x.state) == Consistent
    && x.configFor.None? && !x.restored && (x.state.last.Some? ==> x.state.last.value.at < x.world.now)
  }

  ghost predicate Decided(x: Work) {
    && Durable(x) && (x.state == x.saved || x.state == x.saved.Seeded()) && Verdict(x.world, x.told, x.state) == Consistent
    && x.state.Wanted().Some? && x.saved.Wanted() == x.state.Wanted()
    && !x.saved.Leaves(x.state.Wanted().value, x.world.venvs) && !x.state.Leaves(x.state.Wanted().value, x.world.venvs)
    && x.configFor.None? && !x.restored
  }

  lemma WakeHolds(m: Machine, f: Fate)
    requires Verdict(m.world, m.told, m.saved) == Consistent
    ensures Awake(Wake(m, f))
  {
    hide World.Holds, History.Agrees;
    m.world.Ticked(m.saved);
    m.world.Tick().Seeded(m.saved);
    m.told.SeededAgrees(m.saved, m.world.schedule, m.world.venvs);
  }

  /** Seeding changes nothing but the verdict on the current version. */
  lemma SeededLeaves(x: Work, w: Version)
    requires x.state == x.saved.Seeded() && x.state.Leaves(w, x.world.venvs)
    ensures x.saved.Leaves(w, x.world.venvs) && x.saved.FallbackTarget() == x.state.FallbackTarget()
    ensures x.saved.CarriesBack(w) == x.state.CarriesBack(w) && x.saved.Wanted() == x.state.Wanted()
    ensures x.world.Judge(x.saved) == Consistent ==> !(x.saved.AppliedBefore() && x.saved.Wanted() == Some(w))
  {
    if x.saved.Seeded() != x.saved { x.world.SeededIsNoLessStable(x.saved, x.state); }
    if x.world.Judge(x.saved) == Consistent && x.saved.Wanted() == Some(w) { x.world.LeavingIsTracked(x.saved, w); }
  }

  lemma FallBackHolds(x: Work, f: Fate)
    requires Awake(x) && x.state.Wanted().Some? && x.state.Leaves(x.state.Wanted().value, x.world.venvs)
    ensures var y := x.FallBack(x.state.Wanted().value, x.state.FallbackTarget().value, f); Durable(y) && (!y.ended ==> Decided(y))
  {
    hide World.Holds, History.Agrees;
    var w, t := x.state.Wanted().value, x.state.FallbackTarget().value;
    var owed := x.Owed(w, t);
    var ok := x.Schedules(owed, t, f);
    OwedIsRecorded(x, w, t);
    var r := if ok && owed.Some? then Some(Own(owed.value.backup, t)) else x.world.schedule;
    SeededLeaves(x, w);
    if ok && owed.Some? { EarlyHolds(x, w, t); }
    var recovery := if owed.Some? then owed else x.state.recovery;
    assert x.told.Falls(x.world, x.state, w, recovery, r, ok);
    x.told.FallbackAgrees(x.world, x.state, w, recovery, r, ok);
    x.told.FallbackHolds(x.world, x.state, w, recovery, r, ok);
    assert x.FallBack(w, t, f).world == x.world.(schedule := r);
  }

  lemma OwedIsRecorded(x: Work, w: Version, t: Version)
    requires x.world.Judge(x.state) == Consistent && x.state.Wanted() == Some(w) && x.state.Leaves(w, x.world.venvs) && x.state.FallbackTarget() == Some(t)
    ensures x.Owed(w, t).Some? <==> x.state.CarriesBack(w)
    ensures x.Owed(w, t).Some? ==> x.Owed(w, t).value == Recovery(x.Owed(w, t).value.backup, w, t, x.world.now) && x.Owed(w, t).value.backup in x.world.backups
  {
  }

  lemma EarlyHolds(x: Work, w: Version, t: Version)
    requires Awake(x) && x.state.Wanted() == Some(w) && x.state.Leaves(w, x.world.venvs) && x.state.FallbackTarget() == Some(t)
    requires x.Owed(w, t).Some?
    ensures Verdict(x.world.(schedule := Some(Own(x.Owed(w, t).value.backup, t))), x.told, x.saved) == Consistent
  {
    hide World.Holds, History.Agrees;
    SeededLeaves(x, w);
    OwedIsRecorded(x, w, t);
    x.world.LeavingIsTracked(x.saved, w);
    x.world.ScheduledEarly(x.saved, w, t, x.Owed(w, t).value.backup);
    x.told.RescheduledAgrees(x.world, x.saved, Some(Own(x.Owed(w, t).value.backup, t)));
  }

  lemma CrashFallbackHolds(x: Work, f: Fate)
    requires Awake(x) && x.state.Wanted().Some?
    ensures var y := x.CrashFallback(f); Durable(y) && (!y.ended ==> Decided(y))
  {
    hide World.Holds, History.Agrees;
    if x.state.failures >= MAX_BOOT_FAILURES && x.state.Leaves(x.state.Wanted().value, x.world.venvs) {
      FallBackHolds(x, f);
    }
  }

  // ----- a version to run, and its configuration ----------------------------------------------

  /** The crash counter may want to leave the current version, which goes on because another could not be installed. */
  ghost predicate Firm(w: World, s: HaState) {
    s.Wanted().Some? && s.Leaves(s.Wanted().value, w.venvs) ==>
      && s.recovery.None? && !(s.change.Some? && s.change.value.applied) && !s.OwnBefore()
      && (s.change.Some? ==> Some(s.change.value.to) != s.Wanted()) && (w.schedule.Some? ==> w.schedule.value.forVersion != s.Wanted())
      && (w.Redone(s.Calm()) || w.Anchored(w.writer))
      && (w.schedule.Some? && w.schedule.value.begun ==> w.schedule.value.ByHand() && w.Anchored(w.schedule.value.before))
      && (w.plan.Some? && w.plan.value.stage == Renaming ==> w.Anchored(w.plan.value.aside))
  }

  /** The version that boots is installed, and a boot after a cut comes back to it. */
  ghost predicate Chosen(x: Work) {
    && Durable(x) && Sound(x) && Firm(x.world, x.state) && x.configFor.None?
    && x.state.Wanted().Some? && x.state.Wanted().value in x.world.venvs
    && x.saved.recovery == x.state.recovery && x.saved.last == x.state.last
    && (x.world.Heads(x.saved, x.state.Wanted().value) || (x.world.schedule.None? && x.world.Loose(x.saved, x.world.writer)))
  }

  lemma InstallHolds(x: Work, f: Fate)
    requires Decided(x)
    ensures var y := x.Install(f); Durable(y) && (!y.ended ==> Chosen(y) && y.restored == x.restored)
  {
    hide World.Holds, History.Agrees;
    var w := x.state.Wanted().value;
    if w in x.world.venvs {
      x.world.Calmed(x.state);
    } else if f.installs {
      x.told.InstalledAgrees(x.saved, x.world.schedule, x.world.venvs, w);
      x.told.InstalledAgrees(x.state, x.world.schedule, x.world.venvs, w);
      x.world.Installed(x.saved, w);
      x.world.Installed(x.state, w);
      x.Install(f).world.Calmed(x.state);
    } else {
      NotInstalledHolds(x, f);
    }
  }

  lemma NotInstalledHolds(x: Work, f: Fate)
    requires Decided(x) && x.state.Wanted().value !in x.world.venvs && !f.installs
    ensures !x.Install(f).ended ==> Chosen(x.Install(f))
    ensures Durable(x.Install(f))
  {
    hide World.Holds, History.Agrees, World.Fits;
    var y := x.Install(f);
    x.world.NotInstalled(x.saved);
    x.world.NotInstalled(x.state);
    x.told.NotInstalledAgrees(x.world, x.state);
    if x.world.plan.Some? && x.world.plan.value.stage == Renaming { AwaitedAsideIsAnchored(x.world, x.state); }
  }

  lemma AwaitedAsideIsAnchored(w: World, s: HaState)
    requires w.Judge(s) == Consistent && s.Wanted().Some? && s.Wanted().value !in w.venvs && w.plan.Some? && w.plan.value.stage == Renaming
    ensures w.Anchored(w.plan.value.aside)
  {
  }

  // ----- the scheduled restore ------------------------------------------------------------------

  lemma OrphanHolds(x: Work, f: Fate)
    requires Chosen(x)
    ensures var y := x.DropOrphan(f); Durable(y) && (!y.ended ==> Chosen(y) && y.restored == x.restored)
  {
    hide World.Holds, History.Agrees, World.Fits, HaState.Leaves;
    CalmIsSteady(x);
    if x.world.schedule.Some? && !x.world.schedule.value.begun && f.archiveGone {
      var w, r := x.state.Wanted().value, x.world.schedule.value;
      var l := LastRestore(false, r.backup, r.forVersion, r.storage, x.world.now);
      var s := x.state.(last := Some(l));
      assert s.Calm() == x.state.Calm().(last := Some(l));
      x.world.OrphanRecorded(x.state.Calm(), w, l);
      x.told.OrphanAgrees(x.world, x.state, l);
      OutcomeIsCounted(x.world, x.state, Some(l));
      OutcomeDropped(x.world, x.told, s);
    }
  }

  /** The outcome is recorded: the schedule goes. */
  lemma OutcomeDropped(w: World, told: History, s: HaState)
    requires w.Judge(s) == Consistent && w.Judge(s.Calm()) == Consistent && told.Tell(s, w.schedule, w.venvs) == Consistent
    requires s.Wanted().Some? && s.Wanted().value in w.venvs && w.schedule.Some? && !w.schedule.value.begun
    ensures Verdict(w.Unscheduled(), told, s) == Consistent && w.Unscheduled().Judge(s.Calm()) == Consistent
    ensures !s.Leaves(s.Wanted().value, w.venvs) ==> w.Unscheduled().Heads(s, s.Wanted().value)
  {
    w.DroppedSchedule(s);
    w.DroppedSchedule(s.Calm());
    told.RescheduledAgrees(w, s, None);
  }

  /** With the current version going on against the counter, an outcome can still be recorded. */
  lemma OutcomeIsCounted(w: World, s: HaState, l: Option<LastRestore>)
    requires w.Judge(s.(last := l).Calm()) == Consistent && s.Wanted().Some? && s.Wanted().value in w.venvs && Firm(w, s)
    requires s.Leaves(s.Wanted().value, w.venvs) ==> w.Anchored(w.writer) && !s.(last := l).OwnBefore()
    requires w.schedule.Some? ==> !w.schedule.value.begun
    ensures w.Judge(s.(last := l)) == Consistent && Firm(w, s.(last := l))
    ensures s.Leaves(s.Wanted().value, w.venvs) == s.(last := l).Leaves(s.Wanted().value, w.venvs)
    ensures s.Leaves(s.Wanted().value, w.venvs) ==> w.Loose(s.(last := l), w.writer)
  {
    w.Counted(s.(last := l));
  }

  lemma CalmIsSteady(x: Work)
    requires x.state.Wanted().Some? && x.state.Wanted().value in x.world.venvs
    ensures x.world.Steady(x.state.Calm(), x.state.Wanted().value)
  {
  }

  lemma ForeignHolds(x: Work, f: Fate)
    requires Chosen(x)
    ensures var y := x.DropForeign(f);
            Durable(y) && (!y.ended ==> Chosen(y) && y.restored == x.restored && (y.world.schedule.None? || y.world.Applies(y.state.Wanted().value)))
    ensures x.world.schedule.Some? && x.world.schedule.value.begun ==> x.DropForeign(f) == x || x.world.Ended(x.state, x.world.schedule.value)
  {
    hide World.Holds, History.Agrees;
    var w := x.state.Wanted().value;
    if x.world.schedule.Some? && x.world.schedule.value.begun { BegunFits(x); }
    if x.world.schedule.Some? && !x.world.Fits(x.world.schedule.value, w) {
      CalmIsSteady(x);
      x.world.DroppedSchedule(x.saved);
      x.world.DroppedSchedule(x.state.Calm());
      DroppedAgrees(x);
    }
  }

  /** What an earlier boot began is applied again by this one, or is over. */
  lemma BegunFits(x: Work)
    requires Chosen(x) && x.world.schedule.Some? && x.world.schedule.value.begun
    ensures x.world.Fits(x.world.schedule.value, x.state.Wanted().value) || x.world.Ended(x.state, x.world.schedule.value)
  {
  }

  lemma DroppedAgrees(x: Work)
    requires Chosen(x) && x.world.schedule.Some? && !x.world.Fits(x.world.schedule.value, x.state.Wanted().value)
    ensures x.told.Tell(x.saved, None, x.world.venvs) == x.told.Tell(x.state, None, x.world.venvs) == Consistent
  {
  }

  // ----- applied or put back --------------------------------------------------------------------

  /** The scheduled restore is through, or there was none. */
  ghost predicate Applied(x: Work) {
    && Chosen(x) && x.world.schedule.None?
    && (x.restored ==>
          && x.state.last.Some? && x.state.last.value.at == x.world.now && (x.world.plan.Some? ==> x.world.plan.value.stage != Renaming)
          && (x.state.last.value.ok && x.state.last.value.storage ==> AtMost(x.world.writer, x.state.Wanted().value))
          && (x.state.last.value.ok && x.state.Recovers(x.state.Wanted().value) ==>
                x.state.AppliedBefore() || AtMost(x.world.writer, x.state.Wanted().value) || x.world.Anchored(x.world.writer)))
  }

  lemma ApplyHolds(x: Work, f: Fate)
    requires Chosen(x) && !x.restored && (x.world.schedule.None? || x.world.Applies(x.state.Wanted().value))
    ensures var y := x.ApplyPending(f); Durable(y) && (!y.ended ==> Applied(y))
  {
    hide World.Holds, History.Agrees;
    if x.world.schedule.Some? {
      var w := x.state.Wanted().value;
      CalmIsSteady(x);
      x.world.BeginRestore(x.saved, w);
      x.world.BeginRestore(x.state.Calm(), w);
      BegunAgrees(x);
      if f.cut == HalfRestored && x.world.schedule.value.storage { x.world.Begun().RestoreCut(x.saved, f.half); }
      if f.cut != CopyTaken && f.cut != HalfRestored { ConcludeHolds(x, f); }
    }
  }

  lemma BegunAgrees(x: Work)
    requires Chosen(x) && x.world.schedule.Some?
    ensures var b := x.world.Begun(); x.told.Tell(x.saved, b.schedule, b.venvs) == x.told.Tell(x.state, b.schedule, b.venvs) == Consistent
  {
  }

  lemma ConcludeHolds(x: Work, f: Fate)
    requires Chosen(x) && !x.restored && x.world.Applies(x.state.Wanted().value)
    requires x.world.Begun().Judge(x.state.Calm()) == Consistent
    requires x.told.Tell(x.state, x.world.Begun().schedule, x.world.venvs) == Consistent
    ensures var y := x.Conclude(x.world.Begun(), f); Durable(y) && (!y.ended ==> Applied(y))
  {
    hide World.Holds, History.Agrees;
    var b, w, ok, s := x.world.Begun(), x.state.Wanted().value, f.restores, x.state;
    CalmIsSteady(x);
    var l := b.Outcome(ok, w);
    x.told.ConcludedAgrees(b, s, w, ok);
    var W := if ok then b.Restored() else b.PutBack();
    var t := s.(last := Some(l));
    assert t.Calm() == s.Calm().(last := Some(l));
    if ok {
      b.RestoreApplied(s.Calm(), w);
      b.RestoreAppliedForGood(s.Calm(), w);
    } else {
      b.RestorePutBack(s.Calm(), w);
      b.RestorePutBackForGood(s.Calm(), w);
    }
    ConcludedIsFirm(x, W, t, ok);
    W.Counted(t);
    W.Unscheduled().Counted(t);
    RestoredIsRead(x, W, t, ok);
  }

  /** What was recorded can be read again, though the counter may want to leave the version that goes on. */
  lemma ConcludedIsFirm(x: Work, W: World, t: HaState, ok: bool)
    requires Chosen(x) && x.world.Applies(x.state.Wanted().value)
    requires var b := x.world.Begun(); W == (if ok then b.Restored() else b.PutBack()) && t == x.state.(last := Some(b.Outcome(ok, x.state.Wanted().value)))
    ensures Firm(W, t) && Firm(W.Unscheduled(), t) && t.Wanted() == x.state.Wanted()
    ensures t.Leaves(t.Wanted().value, W.venvs) ==>
              W.Loose(t, W.writer) && !t.OwnBefore() && W.schedule.value.ByHand() && W.Loose(t, W.schedule.value.before) && W.Ended(t, W.schedule.value)
    ensures W.plan.Some? ==> W.plan.value.stage != Renaming
  {
  }

  lemma RestoredIsRead(x: Work, W: World, t: HaState, ok: bool)
    requires Chosen(x) && x.world.Applies(x.state.Wanted().value)
    requires x.world.Begun().Judge(x.state.Calm()) == Consistent
    requires var b := x.world.Begun(); W == (if ok then b.Restored() else b.PutBack()) && t == x.state.(last := Some(b.Outcome(ok, x.state.Wanted().value)))
    ensures var w := x.state.Wanted().value;
            && (ok && t.last.value.storage ==> AtMost(W.writer, w))
            && (ok && t.Recovers(w) ==> t.AppliedBefore() || AtMost(W.writer, w) || W.Anchored(W.writer))
  {
  }

  // ----- what the boot concludes ----------------------------------------------------------------

  /** What the boot works on, once no fallback waits for its restore: one made by hand may have stood in for it. */
  ghost predicate Concluded(x: Work) {
    && Durable(x) && x.world.Judge(x.state.Calm()) == Consistent && x.told.Resolved(x.state).Tell(x.state, None, x.world.venvs) == Consistent
    && x.world.schedule.None? && x.state.Wanted().Some? && x.state.Wanted().value in x.world.venvs && !x.state.Recovers(x.state.Wanted().value)
    && (x.restored ==> x.state.last.Some? && x.state.last.value.at == x.world.now)
  }

  /** The configuration is in place but for a clean start. */
  ghost predicate Placed(x: Work) {
    && Concluded(x)
    && (var w := x.state.Wanted().value;
        && (x.configFor.Some? ==>
              && x.configFor == Some(w) && AtMost(x.world.writer, w)
              && (x.world.plan.Some? && x.world.plan.value.stage == Renaming ==> AtMost(x.world.plan.value.aside, w)))
        && (x.restored ==> x.world.plan.Some? ==> x.world.plan.value.stage != Renaming)
        && (|| (x.world.Steady(x.saved, w) && (x.saved.Recovers(w) ==> x.saved.AppliedBefore()))
            || x.world.Loose(x.saved, x.world.writer) || (x.restored && x.state.last.value.ok)))
  }

  /** The volume is as the version wanted needs it. */
  ghost predicate Ready(x: Work) {
    && Concluded(x) && (x.world.plan.Some? ==> x.world.plan.value.stage != Renaming)
    && (x.configFor == x.state.Wanted() ==> x.world.Rebuilt(x.state.Wanted().value) || AtMost(x.world.writer, x.state.Wanted().value))
    && (x.state.change.Some? ==> Some(x.state.change.value.to) == x.state.Wanted() && x.state.change.value.applied)
  }

  lemma RecoveryHolds(x: Work)
    requires Applied(x)
    ensures var y := x.SettleRecovery(); Durable(y) && (if x.Missed() then Ready(y) else Placed(y))
  {
    hide World.Holds, History.Agrees;
    var w := x.state.Wanted().value;
    CalmIsSteady(x);
    if x.state.Recovers(w) {
      SettlingHolds(x);
    } else {
      NothingToSettle(x);
    }
  }

  lemma NothingToSettle(x: Work)
    requires Applied(x) && !x.state.Recovers(x.state.Wanted().value)
    ensures Placed(x.SettleRecovery())
  {
    assert x.told.Resolved(x.state) == x.told;
  }

  lemma SettlingHolds(x: Work)
    requires Applied(x) && x.state.Recovers(x.state.Wanted().value)
    ensures if x.Missed() then Ready(x.SettleRecovery()) else Placed(x.SettleRecovery())
  {
    var w, s := x.state.Wanted().value, x.state;
    CalmIsSteady(x);
    x.told.RecoveryAgrees(x.world, s, w);
    if x.Missed() {
      x.world.RecoveryMissed(s.Calm(), w);
      assert s.(desired := Some(s.recovery.value.left)).Calm() == s.Calm().(desired := Some(s.recovery.value.left));
      MissedIsReady(x);
    } else {
      x.world.RecoveryDone(s.Calm(), w);
      assert s.(recovery := None).Calm() == s.Calm().(recovery := None);
    }
  }

  lemma MissedIsReady(x: Work)
    requires Applied(x) && x.Missed()
    requires x.world.Judge(x.state.(desired := Some(x.state.recovery.value.left)).Calm()) == Consistent
    requires x.told.Tell(x.state.(desired := Some(x.state.recovery.value.left)), None, x.world.venvs) == Consistent
    ensures Ready(x.SettleRecovery())
  {
  }

  // ----- the clean start ------------------------------------------------------------------------

  /** ... and the clean start is carried out or dropped. */
  ghost predicate Cleaned(x: Work) {
    && Concluded(x) && (x.world.plan.Some? ==> x.world.plan.value.stage != Renaming)
    && (x.configFor.Some? ==> x.configFor == x.state.Wanted() && (x.world.Rebuilt(x.state.Wanted().value) || AtMost(x.world.writer, x.state.Wanted().value)))
  }

  lemma ResetHolds(x: Work, f: Fate)
    requires Placed(x)
    ensures var y := x.ResetStorage(f); Durable(y) && (!y.ended ==> Cleaned(y))
  {
    hide World.Holds, History.Agrees;
    if x.world.plan.Some? {
      var w, p := x.state.Wanted().value, x.world.plan.value;
      DropPlanHolds(x, f);
      if p.to == w && p.stage == Renaming {
        var q := p.(stage := Importing);
        RenamingIsEmpty(x);
        x.world.StorageEmptied(x.saved, q);
        x.world.StorageEmptied(x.state.Calm(), q);
        assert x.world.(plan := Some(q), writer := None) == x.world.(plan := Some(q));
      } else if p.to == w && !(x.restored && x.state.last.value.ok) {
        SetAsideHolds(x);
      }
    }
  }

  lemma RenamingIsEmpty(x: Work)
    requires Placed(x) && x.world.plan.Some? && x.world.plan.value.stage == Renaming
    ensures x.world.writer.None? && x.saved.Wanted().Some?
  {
  }

  lemma SetAsideHolds(x: Work)
    requires Placed(x) && x.world.plan.Some? && x.world.plan.value.to == x.state.Wanted().value && !(x.restored && x.state.last.value.ok)
    ensures var w := x.world.(plan := Some(Plan(x.state.Wanted().value, Renaming, x.world.writer)), writer := None);
            && Verdict(w, x.told, x.saved) == Consistent
            && Verdict(w.(plan := Some(w.plan.value.(stage := Importing))), x.told, x.saved) == Consistent
            && w.(plan := Some(w.plan.value.(stage := Importing))).Judge(x.state.Calm()) == Consistent
  {
    hide World.Holds, History.Agrees;
    var w := x.state.Wanted().value;
    var aside := x.world.(plan := Some(Plan(w, Renaming, x.world.writer)), writer := None);
    x.world.StorageSetAside(x.saved, w);
    var q := Plan(w, Importing, x.world.writer);
    assert x.saved.Wanted().Some? by { WantsSomething(x); }
    x.world.StorageEmptied(x.saved, q);
    x.world.StorageEmptied(x.state.Calm(), q);
  }

  lemma WantsSomething(x: Work)
    requires Durable(x) && x.world.plan.Some?
    ensures x.saved.Wanted().Some?
  {
  }

  lemma DropPlanHolds(x: Work, f: Fate)
    requires Placed(x) && x.world.plan.Some?
    ensures var y := x.DropPlan(f); Durable(y) && (!y.ended ==> Cleaned(y))
  {
    hide World.Holds, History.Agrees;
    var p := x.world.plan.value;
    if p.stage == Renaming && !x.StorageRestored() && x.world.writer.None? && f.putsBack {
      x.world.AsidePutBack(x.saved);
      x.world.AsidePutBack(x.state.Calm());
      var back := x.world.(writer := p.aside, plan := Some(p.(stage := Reset)));
      back.PlanDropped(x.saved);
      back.PlanDropped(x.state.Calm());
    } else {
      x.world.PlanDropped(x.saved);
      x.world.PlanDropped(x.state.Calm());
    }
  }

  // ----- the change -------------------------------------------------------------------------------

  lemma ChangeHolds(x: Work)
    requires Cleaned(x)
    ensures Ready(x.CompleteChange())
  {
    hide World.Holds, History.Agrees;
    var w, s := x.state.Wanted().value, x.state;
    CalmIsSteady(x);
    if s.change.Some? {
      ChangeStandsAlone(x);
      x.told.ChangeAgrees(x.world, s, w);
      if s.change.value.to != w {
        x.world.ChangeDropped(s.Calm(), w);
        assert s.(change := None).Calm() == s.Calm().(change := None);
      } else if x.Misses(w) {
        x.world.ChangeMissed(s.Calm(), w);
        assert s.(desired := s.current, change := None).Calm() == s.Calm().(desired := s.current, change := None);
        MissedChangeIsReady(x);
      } else {
        x.world.ChangeApplied(s.Calm(), w);
        var t := s.(change := Some(s.change.value.(applied := true)));
        assert t.Calm() == s.Calm().(change := t.change);
        if s.OwnBefore() { OwnIsRead(x); }
      }
    }
  }

  /** With a change recorded nothing is resolved. */
  lemma ChangeStandsAlone(x: Work)
    requires Concluded(x) && x.state.change.Some?
    ensures x.told.Resolved(x.state) == x.told && x.state.recovery.None? && x.told.owed.None?
  {
  }

  lemma OwnIsRead(x: Work)
    requires Concluded(x) && x.state.OwnBefore()
    ensures AtMost(x.world.writer, x.state.change.value.to)
  {
  }

  lemma MissedChangeIsReady(x: Work)
    requires Cleaned(x) && x.Misses(x.state.Wanted().value)
    requires x.world.Judge(x.state.(desired := x.state.current, change := None).Calm()) == Consistent
    requires x.told.Tell(x.state.(desired := x.state.current, change := None), None, x.world.venvs) == Consistent && x.told.owed.None?
    ensures Ready(x.CompleteChange())
  {
  }

  // ----- the boot ---------------------------------------------------------------------------------

  lemma RestoreHolds(x: Work, f: Fate)
    requires Chosen(x) && !x.restored
    ensures var y := x.ApplyRestore(f); Durable(y) && (!y.ended ==> Applied(y))
  {
    hide Durable, Chosen, Applied, Work.DropOrphan, Work.DropForeign, Work.ApplyPending;
    WantedIsSome(x);
    OrphanHolds(x, f);
    var a := x.DropOrphan(f);
    if !a.ended {
      ForeignHolds(a, f);
      var b := a.DropForeign(f);
      if !b.ended { ApplyHolds(b, f); }
    }
  }

  lemma ConfigHolds(x: Work, f: Fate)
    requires Chosen(x) && !x.restored
    ensures var y := x.ApplyConfigChanges(f); Durable(y) && (!y.ended ==> Ready(y))
  {
    hide Durable, Chosen, Applied, Placed, Cleaned, Ready, Work.ApplyRestore, Work.SettleRecovery, Work.ResetStorage, Work.CompleteChange;
    WantedIsSome(x);
    RestoreHolds(x, f);
    var c := x.ApplyRestore(f);
    if !c.ended {
      RecoveryHolds(c);
      if !c.Missed() {
        ResetHolds(c.SettleRecovery(), f);
        var d := c.SettleRecovery().ResetStorage(f);
        if !d.ended {
          ChangeHolds(d);
          ReadyIsDurable(d.CompleteChange());
        }
      }
    }
  }

  lemma WantedIsSome(x: Work)
    requires Chosen(x)
    ensures x.state.Wanted().Some?
  {
  }

  lemma ReadyIsDurable(x: Work)
    requires Ready(x)
    ensures Durable(x)
  {
  }

  lemma FirstHolds(x: Work, f: Fate, o: Offer)
    requires Awake(x) && x.state.Wanted().None?
    ensures var y := x.FirstVersion(f, o); Durable(y) && (!y.ended ==> Ready(y))
  {
    TakeHolds(x, o.newest, f);
    TakeHolds(x, o.pick, f);
    TakeHolds(x, o.baked, f);
  }

  lemma TakeHolds(x: Work, w: Version, f: Fate)
    requires Awake(x) && x.state.Wanted().None?
    ensures var y := x.Take(w, f); Durable(y) && Ready(y) && Verdict(y.world, y.told, y.state) == Consistent
  {
    x.world.FirstHolds(x.state, w);
    x.told.FirstAgrees(x.world, x.state, w);
  }

  lemma PrepareHolds(m: Machine, f: Fate, o: Offer)
    requires Verdict(m.world, m.told, m.saved) == Consistent
    ensures var x := Prepare(m, f, o); Durable(x) && (!x.ended ==> Ready(x))
  {
    hide Durable, Chosen, Ready;
    WakeHolds(m, f);
    var a := Wake(m, f);
    assert Durable(a);
    if a.ended { return; }
    if a.state.Wanted().None? {
      FirstHolds(a, f, o);
      return;
    }
    CrashFallbackHolds(a, f);
    var b := a.CrashFallback(f);
    if b.ended { return; }
    assert !b.restored;
    InstallHolds(b, f);
    var c := b.Install(f);
    if c.ended { return; }
    ConfigHolds(c, f);
  }

  /** Consistent between two steps, whatever runs. */
  ghost predicate Alive(m: Machine) {
    && Verdict(m.world, m.told, m.saved) == Consistent
    && (m.up.Some? ==> m.world.Running(m.saved, m.up.value, m.wrote) == Consistent && m.told.Rests(m.saved, m.up.value, m.settled))
    && (m.up.None? ==> !m.wrote && !m.settled)
  }

  /** Home Assistant is started only as it may be. */
  lemma LaunchHolds(x: Work, f: Fate)
    requires Ready(x)
    ensures var (m, start) := x.Launch(f); Alive(m) && (start.Some? ==> start.value.Rightful())
  {
    hide World.Judge, World.Running, History.Tell, History.Rests, Start.Rightful;
    assert Verdict(x.world, x.told, x.saved) == Consistent;
    var w := x.state.Wanted().value;
    if !Refuses(w, x.world.haVersion, x.state.proven, x.configFor, x.Kept(w)) {
      PastTheGuard(x);
      RestsAtStart(x);
    }
  }

  lemma PastTheGuard(x: Work)
    requires Ready(x) && !Refuses(x.state.Wanted().value, x.world.haVersion, x.state.proven, x.configFor, x.Kept(x.state.Wanted().value))
    ensures var w, s := x.state.Wanted().value, x.state;
            var recorded := x.world.Committed(s, w, x.Previous(w), s.failures);
            var counted := x.world.Committed(s, w, x.Previous(w), s.failures + 1);
            && Verdict(x.world, x.told.Resolved(s), recorded) == Consistent
            && Verdict(x.world, x.told.Resolved(s).Tried(), counted) == Consistent
            && Verdict(x.world, x.told.Resolved(s).Tried().Begins(w), counted) == Consistent
            && x.world.Running(counted, w, false) == Consistent
            && Start(w, s, x.world, x.told.Resolved(s)).Rightful()
  {
    hide World.Holds, World.Runs, History.Agrees, Start.Rightful, World.Committed;
    var w, s := x.state.Wanted().value, x.state;
    x.world.GuardIsSafe(s, w, x.configFor, x.Kept(w));
    x.told.StartHolds(x.world, s, w, x.Previous(w));
    x.told.StartAgrees(x.world, s, w, x.Previous(w));
    x.told.StartIsRightful(x.world, s, w);
  }

  lemma RestsAtStart(x: Work)
    requires Ready(x)
    ensures var w := x.state.Wanted().value;
            var s := x.world.Committed(x.state, w, x.Previous(w), x.state.failures + 1);
            x.told.Resolved(x.state).Tried().Begins(w).Rests(s, w, false)
  {
  }

  /** A boot, cut anywhere. */
  lemma BootHolds(m: Machine, f: Fate, o: Offer)
    requires Verdict(m.world, m.told, m.saved) == Consistent
    ensures var (r, start) := BootOf(m, f, o); Alive(r) && (start.Some? ==> start.value.Rightful())
    ensures BootOf(m, f, o).1.Some? ==> BootOf(m, f, o).0.up == Some(BootOf(m, f, o).1.value.version)
  {
    hide Ready, Prepare, Verdict, Start.Rightful;
    PrepareHolds(m, f, o);
    var x := Prepare(m, f, o);
    if !x.ended { LaunchHolds(x, f); }
  }
}
