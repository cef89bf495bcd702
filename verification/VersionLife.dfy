/** A life of the version machine: requests while Home Assistant runs, every run of boots and requests, what each event adds
    to the crash count, and whose restore completes a fallback. */
module VersionLife {
  import opened VersionWorld
  import opened VersionHistory
  import opened VersionBoot
  import opened VersionProof

  // ----- while Home Assistant runs ----------------------------------------------------------------

  lemma DownHolds(m: Machine)
    requires Alive(m)
    ensures Alive(m.Down())
  {
  }

  lemma StopHolds(m: Machine)
    requires Alive(m) && m.up.Some?
    ensures Alive(StoppedOf(m)) && (!m.settled ==> m.saved.failures > 0)
  {
    hide World.Holds, World.Runs, History.Agrees;
    if !m.settled {
      m.world.StoppedRuns(m.saved, m.up.value, m.wrote);
      m.world.RunningHolds(m.saved.(failures := m.saved.failures - 1), m.up.value, m.wrote);
      m.told.StoppedAgrees(m.saved, m.world.schedule, m.world.venvs);
    }
  }

  lemma WriteHolds(m: Machine)
    requires Alive(m) && m.up.Some?
    ensures Alive(WroteOf(m))
  {
    hide World.Holds, World.Runs, History.Agrees;
    m.world.WrittenRuns(m.saved, m.up.value, m.wrote);
    m.world.Written(m.up.value).RunningHolds(m.saved, m.up.value, true);
  }

  /** Home Assistant runs and has written its configuration. */
  ghost predicate Serving(m: Machine) {
    Alive(m) && m.up.Some? && m.wrote
  }

  lemma ServingWants(m: Machine)
    requires Serving(m)
    ensures m.saved.Wanted().Some?
  {
  }

  /** A change of the volume's files, with ha.json as it is. */
  lemma WorldHolds(m: Machine, w: World)
    requires Serving(m) && w.Running(m.saved, m.up.value, true) == Consistent && w.venvs == m.world.venvs
    ensures Serving(m.(world := w))
  {
    w.RunningHolds(m.saved, m.up.value, true);
    m.told.RestingAgrees(m.saved, m.world.schedule, w.schedule, w.venvs);
  }

  lemma MarkOkHolds(m: Machine)
    requires Serving(m)
    ensures Serving(MarkOkOf(m)) && MarkOkOf(m).settled
  {
    hide World.Holds, World.Runs, History.Agrees;
    if !m.settled {
      var v := m.up.value;
      m.world.SettledRuns(m.saved, v);
      m.world.RunningHolds(m.world.Settled(m.saved, v), v, true);
      m.told.SettledAgrees(m.world, m.saved, v, m.settled);
    }
  }

  lemma NoChangeRestore(m: Machine)
    requires Serving(m)
    ensures Serving(m.(world := ChangeRestoreDropped(m.world)))
  {
    hide World.Holds, World.Runs, History.Agrees;
    m.world.UnscheduledRuns(m.saved, m.up.value);
    WorldHolds(m, ChangeRestoreDropped(m.world));
  }

  lemma NoPlan(m: Machine)
    requires Serving(m)
    ensures Serving(m.(world := m.world.(plan := None)))
  {
    hide World.Holds, World.Runs, History.Agrees;
    m.world.UnplannedRuns(m.saved, m.up.value);
    WorldHolds(m, m.world.(plan := None));
  }

  lemma BackupHolds(m: Machine, name: string, made: Version)
    requires Serving(m) && name !in m.world.backups
    ensures Serving(m.(world := WithBackup(m.world, name, made)))
    ensures m.saved.last.Some? ==> m.saved.last.value.at < WithBackup(m.world, name, made).now
  {
    hide World.Holds, World.Runs, History.Agrees;
    m.world.TickedRuns(m.saved, m.up.value);
    m.world.Ticked(m.saved);
    m.world.Tick().BackedUp(m.saved, m.up.value, name, made);
    WorldHolds(m, WithBackup(m.world, name, made));
  }

  lemma RestoreForHolds(m: Machine, backup: string, to: Version)
    requires Serving(m) && backup in m.world.backups && m.world.backups[backup] <= to && Some(to) != m.up
    requires m.saved.Wanted().Some? && !m.saved.Recovers(m.saved.Wanted().value)
    ensures Serving(m.(world := m.world.(schedule := Some(Own(backup, to)))))
  {
    hide World.Holds, World.Runs, History.Agrees;
    m.world.ScheduledFor(m.saved, m.up.value, backup, to);
    WorldHolds(m, m.world.(schedule := Some(Own(backup, to))));
  }

  lemma PreparedHolds(m: Machine, to: Version, mode: Mode, source: string, cut: Point)
    requires Serving(m) && m.saved.Wanted().Some? && !Refused(m, to, mode, source)
    ensures var r := PreparedFor(m, to, mode, source, cut);
            Alive(r) && r.saved == m.saved && r.world.backups == m.world.backups && r.world.now == m.world.now && (r.up.Some? ==> Serving(r) && r.up == m.up)
    ensures var w := PreparedFor(m, to, mode, source, cut).world;
            w.schedule == m.world.schedule || (mode == Restore && w.schedule == Some(Own(source, to)))
  {
    hide World.Holds, World.Runs, History.Agrees;
    if mode == Restore {
      RestoreForHolds(m, source, to);
      var x := m.(world := m.world.(schedule := Some(Own(source, to))));
      NoPlan(x);
      DownHolds(x);
      DownHolds(x.(world := x.world.(plan := None)));
    } else if mode == Rebuild {
      NoPlan(m);
      var x := m.(world := m.world.(plan := None));
      DownHolds(x);
      x.world.Planned(x.saved, x.up.value, to);
      WorldHolds(x, x.world.(plan := Some(Plan(to, Reset, None))));
      DownHolds(x.(world := x.world.(plan := Some(Plan(to, Reset, None)))));
    }
  }

  lemma DesiresHolds(m: Machine, to: Version, mode: Mode, backup: string)
    requires Serving(m) && Some(to) != m.up && backup in m.world.backups && (m.saved.last.Some? ==> m.saved.last.value.at < m.world.now)
    requires mode == Rebuild ==> to < m.up.value
    requires m.world.schedule.Some? && m.world.schedule.value.ByHand() ==>
               mode == Keep && m.world.schedule.value.backup in m.world.backups &&
               (m.world.schedule.value.storage ==> m.world.backups[m.world.schedule.value.backup] <= to)
    ensures Serving(Desires(m, to, Some(Change(to, mode, backup, false, m.world.now, m.up.value))))
  {
    hide World.Holds, World.Runs, History.Agrees;
    var v, change := m.up.value, Some(Change(to, mode, backup, false, m.world.now, m.up.value));
    m.world.RequestRuns(m.saved, v, to, mode, backup);
    m.world.RunningHolds(m.world.Requested(m.saved, to, change), v, true);
    m.told.RequestAgrees(m.world, m.saved, v, to, change, m.settled);
  }

  lemma LeftoversHold(m: Machine, mode: Mode, cut: Point)
    requires Serving(m)
    ensures Alive(LeftoversDropped(m, mode, cut))
  {
    hide World.Holds, World.Runs, History.Agrees;
    NoChangeRestore(m);
    var x := m.(world := ChangeRestoreDropped(m.world));
    DownHolds(x);
    NoPlan(x);
  }

  lemma HandScheduleExists(m: Machine)
    requires Serving(m) && m.world.schedule.Some?
    ensures m.world.schedule.value.backup in m.world.backups
  {
  }

  lemma ChangeVersionHolds(m: Machine, to: Version, mode: Mode, source: string, backup: string, cut: Point)
    requires Serving(m) && m.saved.Wanted().Some?
    ensures Alive(ChangeVersionOf(m, to, mode, source, backup, cut))
  {
    hide World.Holds, World.Runs, History.Agrees, PreparedFor, ChangeRecorded;
    if Refused(m, to, mode, source) || backup in m.world.backups { return; }
    if m.world.schedule.Some? { HandScheduleExists(m); }
    BackupHolds(m, backup, m.up.value);
    var a := m.(world := WithBackup(m.world, backup, m.up.value));
    DownHolds(a);
    if cut == BackedUp { return; }
    PreparedHolds(a, to, mode, source, cut);
    var b := PreparedFor(a, to, mode, source, cut);
    if b.up.None? { return; }
    ChangeRecordedHolds(b, to, mode, backup, cut);
  }

  lemma ChangeRecordedHolds(m: Machine, to: Version, mode: Mode, backup: string, cut: Point)
    requires Serving(m) && Some(to) != m.up && backup in m.world.backups && (m.saved.last.Some? ==> m.saved.last.value.at < m.world.now)
    requires mode == Rebuild ==> to < m.up.value
    requires m.world.schedule.Some? && m.world.schedule.value.ByHand() ==>
               mode == Keep && m.world.schedule.value.backup in m.world.backups &&
               (m.world.schedule.value.storage ==> m.world.backups[m.world.schedule.value.backup] <= to)
    ensures Alive(ChangeRecorded(m, to, mode, backup, cut))
  {
    hide World.Holds, World.Runs, History.Agrees, LeftoversDropped, Desires;
    DesiresHolds(m, to, mode, backup);
    var x := Desires(m, to, Some(Change(to, mode, backup, false, m.world.now, m.up.value)));
    DownHolds(x);
    LeftoversHold(x, mode, cut);
  }

  lemma CancelChangeHolds(m: Machine, cut: Point)
    requires Serving(m)
    ensures Alive(CancelChangeOf(m, cut))
  {
    hide World.Holds, World.Runs, History.Agrees;
    NoChangeRestore(m);
    var a := m.(world := ChangeRestoreDropped(m.world));
    DownHolds(a);
    NoPlan(a);
    var b := a.(world := a.world.(plan := None));
    DownHolds(b);
    var v := m.up.value;
    b.world.CancelRuns(b.saved, v);
    b.world.RunningHolds(b.world.Requested(b.saved, v, None), v, true);
    b.told.RequestAgrees(b.world, b.saved, v, v, None, b.settled);
  }

  lemma RestoreByHandHolds(m: Machine, backup: string, storage: bool, cut: Point)
    requires Serving(m) && m.saved.Wanted().Some?
    ensures Alive(RestoreByHandOf(m, backup, storage, cut))
  {
    hide World.Holds, World.Runs, History.Agrees;
    var s := m.saved;
    if backup !in m.world.backups || (storage && m.world.backups[backup] > s.Wanted().value) { return; }
    if s.change.Some? && s.change.value.mode != Keep && s.change.value.to != m.up.value { return; }
    var w := m.world.(schedule := Some(Schedule(backup, None, storage, false, None)));
    m.world.ScheduledByHand(s, m.up.value, backup, storage);
    WorldHolds(m, w);
    DownHolds(m.(world := w));
    NoPlan(m.(world := w));
  }

  lemma CancelRestoreHolds(m: Machine)
    requires Serving(m)
    ensures Alive(CancelRestoreOf(m))
  {
    hide World.Holds, World.Runs, History.Agrees;
    m.world.UnscheduledRuns(m.saved, m.up.value);
    WorldHolds(m, m.world.Unscheduled());
  }

  /** What is to be judged says nothing about the volume. */
  lemma SmokeHolds(m: Machine, smoke: Option<Smoke>)
    requires Alive(m)
    ensures Alive(m.(saved := m.saved.(smoke := smoke)))
  {
    hide World.Holds, World.Runs, History.Agrees;
    SmokeIsNoVersion(m.world, m.saved, smoke);
    SmokeIsNoHistory(m.world, m.told, m.saved, smoke);
    if m.up.Some? { SmokeIsNoRun(m.world, m.saved, smoke, m.up.value, m.wrote); }
  }

  lemma SmokeIsNoVersion(w: World, s: HaState, smoke: Option<Smoke>)
    requires w.Judge(s) == Consistent
    ensures w.Judge(s.(smoke := smoke)) == Consistent
  {
    SmokeTracksNothing(w, s, smoke, w.writer);
    SmokeIsNoChange(w, s, smoke);
    if w.plan.Some? { SmokeTracksNothing(w, s, smoke, w.plan.value.aside); }
    if w.schedule.Some? { SmokeTracksNothing(w, s.(last := None), smoke, w.schedule.value.before); }
    SmokeIsNoPlan(w, s, smoke);
    hide World.Tracked, World.Recorded, World.RecoveryHolds, World.ChangeHolds, World.RestoresHold, World.PlanHolds;
  }

  lemma SmokeIsNoChange(w: World, s: HaState, smoke: Option<Smoke>)
    ensures var t := s.(smoke := smoke);
            (w.Recorded(s) ==> w.Recorded(t)) && (w.RecoveryHolds(s) ==> w.RecoveryHolds(t)) &&
            (w.ChangeHolds(s) ==> w.ChangeHolds(t)) && (w.RestoresHold(s) ==> w.RestoresHold(t))
  {
    hide World.PlanHolds, World.ScheduleHolds, World.Tracked;
  }

  lemma SmokeIsNoPlan(w: World, s: HaState, smoke: Option<Smoke>)
    requires w.plan.Some? ==> (w.Tracked(s, w.plan.value.aside) ==> w.Tracked(s.(smoke := smoke), w.plan.value.aside))
    ensures w.PlanHolds(s) ==> w.PlanHolds(s.(smoke := smoke))
  {
    hide World.Tracked;
  }

  lemma SmokeTracksNothing(w: World, s: HaState, smoke: Option<Smoke>, wr: Option<Version>)
    ensures w.Tracked(s, wr) ==> w.Tracked(s.(smoke := smoke), wr)
  {
  }

  lemma SmokeIsNoRun(w: World, s: HaState, smoke: Option<Smoke>, v: Version, wrote: bool)
    requires w.Running(s, v, wrote) == Consistent
    ensures w.Running(s.(smoke := smoke), v, wrote) == Consistent
  {
  }

  lemma SmokeIsNoHistory(w: World, told: History, s: HaState, smoke: Option<Smoke>)
    requires told.Tell(s, w.schedule, w.venvs) == Consistent
    ensures told.Tell(s.(smoke := smoke), w.schedule, w.venvs) == Consistent
  {
  }

  lemma SwitchBackHolds(m: Machine, merged: string, cut: Point)
    requires Serving(m) && m.saved.Wanted().Some? && m.settled
    ensures Alive(SwitchBackOf(m, merged, cut))
  {
    if Back(m).Some? { SwitchToHolds(m, Back(m).value, merged, cut); }
  }

  lemma SwitchToHolds(m: Machine, back: Version, merged: string, cut: Point)
    requires Serving(m) && m.saved.Wanted().Some? && m.settled
    ensures Alive(SwitchToOf(m, back, merged, cut))
  {
    hide World.Holds, World.Runs, History.Agrees;
    var v := m.up.value;
    if back == v || back !in m.world.venvs || merged in m.world.backups || m.world.schedule.Some? || m.saved.Wanted() != Some(v) || m.saved.Recovers(v) { return; }
    BackupHolds(m, merged, back);
    var a := m.(world := WithBackup(m.world, merged, back));
    DownHolds(a);
    RestoreForHolds(a, merged, back);
    var b := a.(world := a.world.(schedule := Some(Own(merged, back))));
    DownHolds(b);
    var s := b.world.SwitchedBack(b.saved, v, back, merged);
    b.world.SwitchBackRuns(b.saved, v, back, merged);
    b.world.RunningHolds(s, v, true);
    b.told.SwitchBackAgrees(b.world, b.saved, v, back, merged);
  }

  // ----- a life -------------------------------------------------------------------------------------

  lemma ServedHolds(m: Machine, q: Request, cut: Point)
    requires Serving(m) && m.saved.Wanted().Some?
    ensures Alive(ServedOf(m, q, cut))
  {
    hide Alive;
    match q
    case MarkOk => MarkOkHolds(m);
    case ChangeVersion(to, mode, source, backup) => ChangeVersionHolds(m, to, mode, source, backup, cut);
    case CancelChange => CancelChangeHolds(m, cut);
    case RestoreByHand(backup, storage) => RestoreByHandHolds(m, backup, storage, cut);
    case CancelRestore => CancelRestoreHolds(m);
    case StartSmoke => SmokeHolds(m, SmokeStarted(m).saved.smoke);
    case DropSmoke => SmokeHolds(m, None);
    case SwitchBack(merged) => if m.settled { SwitchBackHolds(m, merged, cut); }
    case RebuildDone => NoPlan(m);
  }

  /** Whatever happens next. */
  lemma StepHolds(m: Machine, e: Event)
    requires Alive(m)
    ensures Alive(StepOf(m, e).0)
    ensures StepOf(m, e).1.Some? ==> StepOf(m, e).1.value.Rightful()
  {
    match e
    case Boot(f, o) => BootHolds(m.Down(), f, o);
    case Crash => DownHolds(m);
    case Stop => if m.up.Some? { StopHolds(m); }
    case Write => if m.up.Some? { WriteHolds(m); }
    case Asked(q, cut) => if m.up.Some? && m.wrote { ServingWants(m); ServedHolds(m, q, cut); }
  }

  lemma FreshIsAlive()
    ensures Alive(Fresh)
  {
  }

  /** Every run, cut anywhere: what ha.json and the volume say stays consistent, and the crash counter is the number of
      boots since the last good one or decision that ended neither well nor by a stop. */
  lemma {:induction false} RunHolds(m: Machine, events: seq<Event>)
    requires Alive(m)
    ensures Alive(RunOf(m, events)) && RunOf(m, events).saved.failures == Failed(RunOf(m, events).told.trace)
  {
    if events != [] {
      RunHolds(m, events[..|events| - 1]);
      StepHolds(RunOf(m, events[..|events| - 1]), events[|events| - 1]);
    }
  }

  /** ... and every start of it is rightful. */
  lemma StartsAreRightful(m: Machine, events: seq<Event>, i: nat)
    requires Alive(m) && i < |events|
    ensures var start := StepOf(RunOf(m, events[..i]), events[i]).1; start.Some? ==> start.value.Rightful()
  {
    RunHolds(m, events[..i]);
    StepHolds(RunOf(m, events[..i]), events[i]);
  }

  // ----- what each event adds to the count ----------------------------------------------------------

  /** The counter decides about the version wanted, and that is recorded. */
  predicate CounterDecides(m: Machine, f: Fate) {
    f.cut != Woken && f.cut != FallbackScheduled && m.saved.Wanted().Some? && m.saved.Seeded().Leaves(m.saved.Wanted().value, m.world.venvs)
  }

  /** A boot comes to its count: a version is installed with its configuration, the guard lets it through, it is recorded. */
  predicate Counts(m: Machine, f: Fate, o: Offer) {
    var x := Prepare(m, f, o);
    !x.ended && f.cut != BootRecorded && x.LetThrough(x.state.Wanted().value)
  }

  /** The happenings the crash counter stands for are those of the events: a boot tells that the counter decided, if it did,
      and that it was counted, if it came to that, which is when Home Assistant is started but for a cut right after the
      count; a stop before the boot is good, and the mark, tell theirs. */
  lemma StepTells(m: Machine, e: Event)
    requires Alive(m)
    ensures var t, (r, start) := m.told.trace, StepOf(m, e);
            match e
            case Boot(f, o) =>
              var d := t + (if CounterDecides(m, f) then [VersionHistory.Decided] else []);
              && r.told.trace == d + (if Counts(m.Down(), f, o) then [Counted] else [])
              && (start.Some? <==> Counts(m.Down(), f, o) && f.cut != BootCounted)
            case Stop => r.told.trace == if m.up.Some? && !m.settled then t + [Stopped] else t
            case Asked(q, _) => r.told.trace == if q.MarkOk? && m.up.Some? && m.wrote && !m.settled then t + [Good] else t
            case _ => r.told.trace == t
  {
    match e
    case Boot(f, o) =>
      hide BootOf;
      hide Counts;
      BootTells(m.Down(), f, o);
    case Stop => if m.up.Some? { StopHolds(m); }
    case Asked(q, cut) =>
      hide ServedOf;
      if m.up.Some? && m.wrote {
        ServingWants(m);
        ServedTells(m, q, cut);
      }
    case _ =>
  }

  lemma ServedTells(m: Machine, q: Request, cut: Point)
    requires m.up.Some? && m.saved.Wanted().Some?
    ensures ServedOf(m, q, cut).told.trace == if q.MarkOk? && !m.settled then m.told.trace + [Good] else m.told.trace
  {
    hide ChangeVersionOf;
    if q.ChangeVersion? { ChangeTells(m, q.to, q.mode, q.source, q.backup, cut); }
  }

  lemma ChangeTells(m: Machine, to: Version, mode: Mode, source: string, backup: string, cut: Point)
    requires m.up.Some? && m.saved.Wanted().Some?
    ensures ChangeVersionOf(m, to, mode, source, backup, cut).told.trace == m.told.trace
  {
    hide Refused;
    hide PreparedFor, LeftoversDropped;
    forall x: Machine ensures PreparedFor(x, to, mode, source, cut).told == x.told { PreparedTells(x, to, mode, source, cut); }
    forall x: Machine ensures LeftoversDropped(x, mode, cut).told == x.told { LeftoversTell(x, mode, cut); }
  }

  lemma PreparedTells(m: Machine, to: Version, mode: Mode, source: string, cut: Point)
    ensures PreparedFor(m, to, mode, source, cut).told == m.told
  {
  }

  lemma LeftoversTell(m: Machine, mode: Mode, cut: Point)
    ensures LeftoversDropped(m, mode, cut).told == m.told
  {
  }

  lemma BootTells(m: Machine, f: Fate, o: Offer)
    requires Verdict(m.world, m.told, m.saved) == Consistent
    ensures var (r, start) := BootOf(m, f, o);
            var d := m.told.trace + (if CounterDecides(m, f) then [VersionHistory.Decided] else []);
            && r.told.trace == d + (if Counts(m, f, o) then [Counted] else [])
            && (start.Some? <==> Counts(m, f, o) && f.cut != BootCounted)
  {
    hide Prepare, Work.Launch, Work.LetThrough, CounterDecides;
    PrepareTells(m, f, o);
    if !Prepare(m, f, o).ended { LaunchTells(Prepare(m, f, o), f); }
  }

  lemma LaunchTells(x: Work, f: Fate)
    requires x.state.Wanted().Some?
    ensures var (r, start), counts := x.Launch(f), x.LetThrough(x.state.Wanted().value) && f.cut != BootRecorded;
            r.told.trace == x.told.trace + (if counts then [Counted] else []) && (start.Some? <==> counts && f.cut != BootCounted)
  {
  }

  lemma PrepareTells(m: Machine, f: Fate, o: Offer)
    requires Verdict(m.world, m.told, m.saved) == Consistent
    ensures Prepare(m, f, o).told.trace == m.told.trace + (if CounterDecides(m, f) then [VersionHistory.Decided] else [])
  {
    hide Work.ApplyConfigChanges, HaState.Leaves, Work.Install, Work.FirstVersion, Work.CrashFallback;
    var a := Wake(m, f);
    assert a.state.Wanted() == m.saved.Wanted() && m.told.trace + [] == m.told.trace;
    if !a.ended && a.state.Wanted().Some? {
      CounterTells(a, f);
      var b := a.CrashFallback(f);
      InstallTells(b, f);
      if !b.ended && !b.Install(f).ended { ConfigTellsNothing(b.Install(f), f); }
    } else if !a.ended {
      FirstTells(a, f, o);
    }
  }

  lemma CounterTells(x: Work, f: Fate)
    requires x.state.Wanted().Some?
    ensures x.CrashFallback(f).told.trace ==
              x.told.trace + (if f.cut != FallbackScheduled && x.state.Leaves(x.state.Wanted().value, x.world.venvs) then [VersionHistory.Decided] else [])
  {
    LeavingCounts(x);
  }

  lemma InstallTells(x: Work, f: Fate)
    requires x.state.Wanted().Some?
    ensures x.Install(f).told == x.told
  {
  }

  lemma FirstTells(x: Work, f: Fate, o: Offer)
    ensures x.FirstVersion(f, o).told == x.told
  {
  }

  lemma LeavingCounts(x: Work)
    requires x.state.Wanted().Some?
    ensures x.state.Leaves(x.state.Wanted().value, x.world.venvs) ==> x.state.failures >= MAX_BOOT_FAILURES
  {
  }

  lemma ConfigTellsNothing(x: Work, f: Fate)
    requires x.state.Wanted().Some?
    ensures x.ApplyConfigChanges(f).told.trace == x.told.trace
  {
    hide Work.ApplyRestore;
  }

  // ----- whose restore completes a fallback -----------------------------------------------------------

  /** A boot that is to complete fallback ``r``, before the recovery is settled. */
  ghost predicate Completing(x: Work, m: Machine, r: Recovery) {
    && x.state.recovery == Some(r) && x.state.Wanted() == Some(r.target) && x.state.change.None?
    && (if x.restored then
          && m.world.schedule.Some? && x.state.last.Some?
          && x.told == m.told.Concluded(x.state, m.world.schedule.value, x.state.last.value.ok)
        else x.told == m.told && (x.state.AppliedBefore() ==> m.saved.AppliedBefore()))
  }

  lemma CompletesUnlessMissed(x: Work, m: Machine, r: Recovery, f: Fate)
    requires Verdict(m.world, m.told, m.saved) == Consistent && m.saved.recovery == Some(r) && m.saved.Wanted() == Some(r.target)
    requires Completing(x, m, r) && r.left != r.target
    ensures var y := x.SettleRecovery();
            if x.Missed() then y.state.Wanted() == Some(r.left)
            else
              && y.state.recovery.None? && y.state.change.None? && y.told == x.told
              && x.told.Resolved(y.state).paid == Some(r.target)
              && (x.told.Resolved(y.state).own <==> m.saved.AppliedBefore() || (m.world.schedule.Some? && History.Pays(m.world.schedule.value, r)))
  {
  }

  /** The restore part keeps to the fallback: it is waited for until its recovery is settled. */
  lemma WaitsUntilSettled(x: Work, m: Machine, r: Recovery, f: Fate)
    requires Verdict(m.world, m.told, m.saved) == Consistent && m.saved.recovery == Some(r) && m.saved.Wanted() == Some(r.target)
    requires Chosen(x) && !x.restored && Completing(x, m, r) && x.world == m.world.Tick()
    ensures !x.ApplyRestore(f).ended ==> Completing(x.ApplyRestore(f), m, r)
  {
    hide World.Holds, History.Agrees, World.Fits, World.Anchored, Firm, Durable, Sound, World.Heads, World.Loose;
    if m.world.schedule.Some? && !m.world.schedule.value.begun { OnlyBegunIsApplied(m); }
  }

  lemma OnlyBegunIsApplied(m: Machine)
    requires Verdict(m.world, m.told, m.saved) == Consistent && m.world.schedule.Some? && !m.world.schedule.value.begun
    ensures !m.saved.AppliedBefore()
  {
  }

  /** The counter does not leave a fallback's version, and that version is installed. */
  lemma FallbackIsKept(m: Machine, f: Fate)
    requires Verdict(m.world, m.told, m.saved) == Consistent && m.saved.recovery.Some? && m.saved.Wanted() == Some(m.saved.recovery.value.target)
    ensures var a := Wake(m, f);
            && a.state.Wanted() == m.saved.Wanted() && a.state.recovery == m.saved.recovery && a.state.last == m.saved.last && a.state.change.None?
            && m.saved.recovery.value.left != m.saved.recovery.value.target
            && !a.state.Leaves(m.saved.recovery.value.target, a.world.venvs) && m.saved.recovery.value.target in a.world.venvs
  {
  }

  lemma FallbackArrives(m: Machine, f: Fate)
    requires Verdict(m.world, m.told, m.saved) == Consistent && m.saved.recovery.Some? && m.saved.Wanted() == Some(m.saved.recovery.value.target)
    ensures var b := Wake(m, f).CrashFallback(f);
            && b.Install(f) == b && (b.ended || Chosen(b)) && !b.restored && Completing(b, m, m.saved.recovery.value)
            && b.world == m.world.Tick()
  {
    hide World.Holds, History.Agrees, HaState.Leaves, Chosen, Sound, HaState.AppliedBefore;
    WakeHolds(m, f);
    FallbackIsKept(m, f);
    var a := Wake(m, f);
    CrashFallbackHolds(a, f);
    var b := a.CrashFallback(f);
    assert b.state == a.state && b.world == a.world && b.told == a.told;
    assert b.state.AppliedBefore() == m.saved.AppliedBefore() by { AppliedIsRecorded(b.state, m.saved); }
    if !b.ended { InstallHolds(b, f); }
  }

  lemma AppliedIsRecorded(s: HaState, t: HaState)
    requires s.recovery == t.recovery && s.last == t.last
    ensures s.AppliedBefore() == t.AppliedBefore()
  {
  }

  /** With no change recorded, only the recovery decides. */
  lemma OnlySettled(x: Work, f: Fate)
    requires x.state.Wanted().Some? && (!x.ApplyRestore(f).ended ==> x.ApplyRestore(f).state.change.None?)
    ensures var y := x.ApplyConfigChanges(f);
            !y.ended ==> !x.ApplyRestore(f).ended && y.state == x.ApplyRestore(f).SettleRecovery().state && y.told == x.ApplyRestore(f).told
  {
    hide Work.ApplyRestore, Work.ResetStorage;
  }

  /** The version a fallback goes back to is started with the fallback's own configuration if and only if that was applied
      before, or the restore that is scheduled when the boot begins is the fallback's own. Otherwise one made by hand
      stood in for it. */
  lemma WhoseRestoreCompletes(m: Machine, f: Fate, o: Offer)
    requires Verdict(m.world, m.told, m.saved) == Consistent && m.saved.recovery.Some? && m.saved.Wanted() == Some(m.saved.recovery.value.target)
    requires BootOf(m, f, o).1.Some? && Some(BootOf(m, f, o).1.value.version) == m.saved.Wanted()
    ensures var h := BootOf(m, f, o).1.value.history;
            && h.paid == m.saved.Wanted()
            && (h.own <==> m.saved.AppliedBefore() || (m.world.schedule.Some? && History.Pays(m.world.schedule.value, m.saved.recovery.value)))
  {
    hide World.Holds, History.Agrees, Chosen, Durable, World.Fits, HaState.Leaves, HaState.AppliedBefore;
    hide Work.CrashFallback, Work.Install, Work.ApplyConfigChanges, Work.ApplyRestore, Work.SettleRecovery;
    var r := m.saved.recovery.value;
    FallbackIsKept(m, f);
    FallbackArrives(m, f);
    var c := Wake(m, f).CrashFallback(f);
    WaitsUntilSettled(c, m, r, f);
    OnlySettled(c, f);
    CompletesUnlessMissed(c.ApplyRestore(f), m, r, f);
  }

  // ----- what single steps promise --------------------------------------------------------------------

  /** Of what a boot that leaves a version can leave behind: nothing, the target together with its schedule, or the version
      itself with the recovery entered. */
  lemma FallbackIsWhole(x: Work, f: Fate)
    requires Awake(x) && x.state.Wanted().Some? && x.state.Leaves(x.state.Wanted().value, x.world.venvs) && x.state.CarriesBack(x.state.Wanted().value)
    ensures var y, w, t := x.CrashFallback(f), x.state.Wanted().value, x.state.FallbackTarget();
            || (y.ended && y.saved == x.saved)
            || (y.saved.recovery.Some? && y.saved.recovery.value.left == w && Some(y.saved.recovery.value.target) == t && y.saved.failures == 0 &&
                if y.fellBack then
                  y.saved.Wanted() == t && y.saved.fallbackFrom == Some(w) && y.world.schedule == Some(Own(y.saved.recovery.value.backup, t.value))
                else y.saved.Wanted() == Some(w) && y.world.schedule == x.world.schedule)
  {
    OwedIsRecorded(x, x.state.Wanted().value, x.state.FallbackTarget().value);
    assert x.Owed(x.state.Wanted().value, x.state.FallbackTarget().value).Some?;
  }

  /** A restore is gone only once ha.json says what became of it, or it does not fit the version that boots. */
  lemma OutcomeBeforeSchedule(x: Work, f: Fate)
    requires x.state.Wanted().Some? && x.world.schedule.Some? && x.ApplyRestore(f).world.schedule.None?
    ensures var r, y := x.world.schedule.value, x.ApplyRestore(f);
            !x.world.Fits(r, x.state.Wanted().value) ||
              (y.saved.last.Some? && y.saved.last.value.backup == r.backup && y.saved.last.value.storage == r.storage && y.saved.last.value.at == x.world.now)
  {
    hide World.Fits, History.Concluded, Work.DropForeign, Work.ApplyPending, Work.DropOrphan;
    OrphanIsRecorded(x, f);
    var a := x.DropOrphan(f);
    if !a.ended && a.world.schedule.Some? {
      ForeignDoesNotFit(a, f);
      var b := a.DropForeign(f);
      if !b.ended && b.world.schedule.Some? { PendingIsRecorded(b, f); }
    }
    if !a.ended && a.world.schedule.None? { NothingScheduled(a, f); }
  }

  lemma OrphanIsRecorded(x: Work, f: Fate)
    requires x.world.schedule.Some?
    ensures var r, y := x.world.schedule.value, x.DropOrphan(f);
            y.world.schedule.None? ==>
              y.saved.last.Some? && y.saved.last.value.backup == r.backup && y.saved.last.value.storage == r.storage && y.saved.last.value.at == x.world.now
    ensures var y := x.DropOrphan(f); y.world.schedule.Some? ==> y.world == x.world
  {
  }

  lemma NothingScheduled(x: Work, f: Fate)
    requires x.state.Wanted().Some? && x.world.schedule.None?
    ensures x.DropForeign(f) == x && x.ApplyPending(f) == x && x.DropForeign(f).ApplyPending(f).saved == x.saved
  {
  }

  lemma ForeignDoesNotFit(x: Work, f: Fate)
    requires x.state.Wanted().Some? && x.world.schedule.Some?
    ensures x.DropForeign(f).world.schedule.None? ==> !x.world.Fits(x.world.schedule.value, x.state.Wanted().value)
    ensures x.DropForeign(f).world.schedule.Some? ==> x.DropForeign(f) == x && x.world.schedule.value.backup in x.world.backups
  {
  }

  lemma PendingIsRecorded(x: Work, f: Fate)
    requires x.state.Wanted().Some? && x.world.schedule.Some? && x.world.schedule.value.backup in x.world.backups
    ensures var r, y := x.world.schedule.value, x.ApplyPending(f);
            y.world.schedule.None? ==>
              y.saved.last.Some? && y.saved.last.value.backup == r.backup && y.saved.last.value.storage == r.storage && y.saved.last.value.at == x.world.now
  {
  }

  /** What ha.json says once another version is asked for, and what was prepared: all of it, or, cut short, no more than
      a change that is recorded or is not. */
  lemma ChangeIsWhole(m: Machine, to: Version, mode: Mode, source: string, backup: string, cut: Point)
    requires Serving(m) && m.saved.Wanted().Some? && !Refused(m, to, mode, source) && backup !in m.world.backups
    ensures var r := ChangeVersionOf(m, to, mode, source, backup, cut);
            var asked := m.world.Requested(m.saved, to, Some(Change(to, mode, backup, false, m.world.now + 1, m.up.value)));
            && backup in r.world.backups && Some(r.world.backups[backup]) == m.up
            && (r.saved == m.saved || r.saved == asked)
            && (r.up.Some? ==>
                  && r.saved == asked
                  && match mode
                     case Keep => r.world.plan.None? && (r.world.schedule.Some? ==> r.world.schedule == m.world.schedule && r.world.schedule.value.ByHand())
                     case Restore => r.world.plan.None? && r.world.schedule == Some(Own(source, to))
                     case Rebuild => r.world.plan == Some(Plan(to, Reset, None)) && r.world.schedule.None?)
            && (r.saved != m.saved && mode == Restore ==> r.world.schedule == Some(Own(source, to)))
            && (r.saved != m.saved && mode == Rebuild ==> r.world.plan == Some(Plan(to, Reset, None)))
  {
    hide World.Running, History.Rests, Verdict, HaState.Recovers, PreparedFor, LeftoversDropped, Refused;
    var a := m.(world := WithBackup(m.world, backup, m.up.value));
    PreparedMeans(a, to, mode, source, cut);
    var b := PreparedFor(a, to, mode, source, cut);
    LeftoversMean(Desires(b, to, Some(Change(to, mode, backup, false, b.world.now, m.up.value))), mode, cut);
    if mode == Rebuild { assert m.world.schedule.Some? ==> m.world.schedule.value.forVersion.Some? by { NoneByHand(m, to, mode, source); } }
  }

  lemma NoneByHand(m: Machine, to: Version, mode: Mode, source: string)
    requires m.up.Some? && m.saved.Wanted().Some? && !Refused(m, to, mode, source) && mode != Keep
    ensures m.world.schedule.Some? ==> m.world.schedule.value.forVersion.Some?
  {
  }

  lemma PreparedMeans(m: Machine, to: Version, mode: Mode, source: string, cut: Point)
    requires m.up.Some?
    ensures var r := PreparedFor(m, to, mode, source, cut);
            && r.saved == m.saved && r.world.backups == m.world.backups && r.world.now == m.world.now && (r.up.Some? ==> r.up == m.up)
            && (r.up.Some? ==> match mode
                               case Keep => r == m
                               case Restore => r.world.plan.None? && r.world.schedule == Some(Own(source, to))
                               case Rebuild => r.world.plan == Some(Plan(to, Reset, None)) && r.world.schedule == m.world.schedule)
  {
  }

  lemma LeftoversMean(m: Machine, mode: Mode, cut: Point)
    ensures var r := LeftoversDropped(m, mode, cut);
            && r.saved == m.saved && r.world.backups == m.world.backups
            && (mode == Restore ==> r == m) && (mode == Rebuild ==> r.world.plan == m.world.plan)
            && (mode != Restore ==> r.world.schedule == if m.world.schedule.Some? && m.world.schedule.value.forVersion.Some? then None else m.world.schedule)
            && (r.up.Some? && mode == Keep ==> r.world.plan.None?)
  {
  }
}
