/** What the version machine is for: where nothing fails and nothing is cut, a version that crashes too often is left with the
    configuration it replaced, and a version that is asked for is started as it was asked for. */
module VersionProgress {
  import opened VersionWorld
  import opened VersionHistory
  import opened VersionBoot
  import opened VersionProof
  import opened VersionLife

  predicate Fair(f: Fate) {
    f.cut == Nowhere && f.schedules && f.installs && !f.archiveGone && f.restores && !f.sourceGone && f.setsAside && f.putsBack
  }

  // ----- a version that is left ---------------------------------------------------------------

  /** The backup whose configuration ``w`` replaced: of the change that was applied, or of the recovery that is about ``w``. */
  function Replaced(s: HaState, w: Version): string
    requires s.CarriesBack(w)
  {
    if s.change.Some? && s.change.value.to == w && s.change.value.applied then s.change.value.backup else s.recovery.value.backup
  }

  /** A version the counter leaves is left: for the one before, with the configuration it replaced, if and only if there is one
      the older version reads and it can be scheduled; where nothing was replaced, at once. Otherwise it stays, as was said. */
  lemma LeftIfItCanBe(x: Work, f: Fate)
    requires x.state.failures >= MAX_BOOT_FAILURES && x.state.Wanted().Some? && x.state.Leaves(x.state.Wanted().value, x.world.venvs)
    requires f.cut != FallbackScheduled && f.cut != FallbackSaved
    ensures var y, s, w, t := x.CrashFallback(f), x.state, x.state.Wanted().value, x.state.FallbackTarget().value;
            && y.saved == y.state && !y.ended && y.configFor == x.configFor && y.restored == x.restored && y.state.failures == 0 && y.state.change.None?
            && if s.CarriesBack(w) then
                 var b := Replaced(s, w);
                 && y.state.recovery == Some(Recovery(b, w, t, x.world.now))
                 && if f.schedules && b in x.world.backups && x.world.backups[b] <= t then
                      y.state.Wanted() == Some(t) && y.state.fallbackFrom == Some(w) && y.world == x.world.(schedule := Some(Schedule(b, Some(t), true, false, None)))
                    else y.state.Wanted() == Some(w) && y.state.fallbackFrom == s.fallbackFrom && y.world == x.world
               else y.state.Wanted() == Some(t) && y.state.fallbackFrom == Some(w) && y.state.recovery == s.recovery && y.world == x.world
  {
  }

  /** ... and the boot that leaves it starts the one before on that configuration. */
  lemma FallbackComes(m: Machine, f: Fate, o: Offer)
    requires Fair(f) && m.saved.Wanted().Some? && m.saved.Seeded().Leaves(m.saved.Wanted().value, m.world.venvs)
    requires m.saved.Seeded().CarriesBack(m.saved.Wanted().value)
    requires var s := m.saved.Seeded();
             var b := Replaced(s, m.saved.Wanted().value);
             b in m.world.backups && m.world.backups[b] <= s.FallbackTarget().value
    ensures var s, w, start := m.saved.Seeded(), m.saved.Wanted().value, BootOf(m, f, o).1;
            && start.Some? && Some(start.value.version) == s.FallbackTarget() && start.value.ha.fallbackFrom == Some(w)
            && start.value.world.writer == Some(m.world.backups[Replaced(s, w)]) && start.value.ha.last.Some? && start.value.ha.last.value.backup == Replaced(s, w)
  {
    var a, s, w := Wake(m, f), m.saved.Seeded(), m.saved.Wanted().value;
    assert a.state == s && s.Wanted() == Some(w);
    LeftIfItCanBe(a, f);
    var b, t := a.CrashFallback(f), s.FallbackTarget().value;
    assert b.Install(f) == b;
    OwnIsRestored(b, f, Replaced(s, w), t);
    hide Work.CrashFallback, Work.ApplyConfigChanges, Work.Launch;
    ConfigurationStarts(b.ApplyConfigChanges(f), f);
  }

  lemma OwnIsRestored(x: Work, f: Fate, b: string, t: Version)
    requires Fair(f) && !x.ended && !x.restored && x.configFor.None? && x.state.Wanted() == Some(t) && x.state.change.None?
    requires x.state.recovery.Some? && x.state.recovery.value.target == t
    requires x.world.schedule == Some(Schedule(b, Some(t), true, false, None)) && b in x.world.backups && x.world.backups[b] <= t
    ensures var y := x.ApplyConfigChanges(f);
            && !y.ended && y.state.Wanted() == Some(t) && y.configFor == Some(t) && y.state.fallbackFrom == x.state.fallbackFrom
            && y.world.writer == Some(x.world.backups[b]) && y.state.last.Some? && y.state.last.value.backup == b
  {
  }

  /** What belongs to the version that boots is started. */
  lemma ConfigurationStarts(x: Work, f: Fate)
    requires Fair(f) && !x.ended && x.state.Wanted().Some? && (x.configFor == x.state.Wanted() || x.Kept(x.state.Wanted().value))
    ensures x.Launch(f).1 == Some(Start(x.state.Wanted().value, x.state, x.world, x.told.Resolved(x.state)))
  {
  }

  // ----- a version that is asked for ----------------------------------------------------------

  /** Whose .storage ``to`` finds: its own backup's, nobody's, or, with the configuration kept, what is there, or what a restore
      by hand that waits puts there. */
  function Brought(w: World, mode: Mode, source: string): Option<Version>
    requires mode == Restore ==> source in w.backups
    requires w.schedule.Some? ==> w.schedule.value.backup in w.backups
  {
    match mode
    case Restore => Some(w.backups[source])
    case Rebuild => None
    case Keep => if w.schedule.Some? && w.schedule.value.ByHand() && w.schedule.value.storage then Some(w.backups[w.schedule.value.backup]) else w.writer
  }

  /** Another version can be asked for: an older one or one whose backup it reads, where the mode needs that; no switch back
      waits for its restart; and a restore by hand that waits can be read by it and is not replaced. */
  predicate CanBeAsked(m: Machine, to: Version, mode: Mode, source: string)
    requires m.up.Some? && m.saved.Wanted().Some?
  {
    && m.up != Some(to) && !m.saved.Recovers(m.saved.Wanted().value)
    && (match mode
        case Keep => true
        case Rebuild => to < m.up.value
        case Restore => source in m.world.backups && m.world.backups[source] <= to)
    && (m.world.schedule.Some? && m.world.schedule.value.ByHand() ==>
          && mode == Keep
          && (m.world.schedule.value.storage ==> m.world.schedule.value.backup in m.world.backups && m.world.backups[m.world.schedule.value.backup] <= to))
  }

  /** A version that can be asked for is what the next boot starts, as it was asked for. */
  lemma ChangeComes(m: Machine, to: Version, mode: Mode, source: string, backup: string, f: Fate, o: Offer)
    requires Serving(m) && m.saved.Wanted().Some? && CanBeAsked(m, to, mode, source) && backup !in m.world.backups
    requires Fair(f) && m.saved.failures < MAX_BOOT_FAILURES
    ensures m.world.schedule.Some? ==> m.world.schedule.value.backup in m.world.backups
    ensures var start := BootOf(ChangeVersionOf(m, to, mode, source, backup, Nowhere).Down(), f, o).1;
            && start.Some? && start.value.version == to && start.value.ha.desired == Some(to) && start.value.world.writer == Brought(m.world, mode, source)
            && start.value.ha.change.Some? && start.value.ha.change.value.mode == mode && start.value.ha.change.value.applied && start.value.ha.change.value.backup == backup
  {
    if m.world.schedule.Some? { HandScheduleExists(m); }
    var r := ChangeVersionOf(m, to, mode, source, backup, Nowhere);
    ChangeIsAsked(m, to, mode, source, backup);
    var a := Wake(r.Down(), f);
    var x := a.Install(f);
    assert a.CrashFallback(f) == a;
    ChangeIsReady(x, to, mode, Brought(m.world, mode, source), f);
    hide ChangeVersionOf, Work.ApplyConfigChanges, Work.Launch;
    ConfigurationStarts(x.ApplyConfigChanges(f), f);
  }

  lemma ChangeIsAsked(m: Machine, to: Version, mode: Mode, source: string, backup: string)
    requires Serving(m) && m.saved.Wanted().Some? && !Refused(m, to, mode, source) && backup !in m.world.backups
    requires m.world.schedule.Some? ==> m.world.schedule.value.backup in m.world.backups
    ensures var r := ChangeVersionOf(m, to, mode, source, backup, Nowhere);
            && r.saved.desired == Some(to) && r.saved.recovery.None? && r.saved.failures == m.saved.failures && r.saved.current == m.saved.current
            && r.saved.change == Some(Change(to, mode, backup, false, r.world.now, m.up.value))
            && r.world.venvs == m.world.venvs
            && Prepared(r.world, to, mode, Brought(m.world, mode, source))
  {
  }

  /** What the boot of ``to`` finds prepared, so that ``wr`` will have written .storage. */
  predicate Prepared(w: World, to: Version, mode: Mode, wr: Option<Version>) {
    match mode
    case Restore =>
      && w.plan.None? && w.schedule.Some? && w.schedule.value.forVersion == Some(to) && w.schedule.value.storage && !w.schedule.value.begun
      && w.Fits(w.schedule.value, to) && wr == Some(w.backups[w.schedule.value.backup])
    case Rebuild => w.plan == Some(Plan(to, Reset, None)) && w.schedule.None? && wr.None?
    case Keep =>
      && w.plan.None?
      && if w.schedule.None? then wr == w.writer
         else w.schedule.value.ByHand() && w.Fits(w.schedule.value, to) && wr == if w.schedule.value.storage then Some(w.backups[w.schedule.value.backup]) else w.writer
  }

  lemma ChangeIsReady(x: Work, to: Version, mode: Mode, wr: Option<Version>, f: Fate)
    requires Fair(f) && !x.ended && !x.restored && x.configFor.None? && Prepared(x.world, to, mode, wr)
    requires x.state.desired == Some(to) && x.state.recovery.None?
    requires x.state.change.Some? && x.state.change.value.to == to && x.state.change.value.mode == mode && x.state.change.value.at <= x.world.now
    ensures var y := x.ApplyConfigChanges(f);
            && !y.ended && y.state.desired == Some(to) && y.state.change == Some(x.state.change.value.(applied := true)) && y.world.writer == wr
            && (y.configFor == Some(to) || y.Kept(to)) && y.state.smoke == x.state.smoke
  {
  }

  /** Where nothing waits, a boot starts the wanted version again on what is there, unless that is a newer version's. */
  lemma SameStarts(m: Machine, f: Fate, o: Offer)
    requires Fair(f) && m.saved.Wanted().Some? && m.saved.failures < MAX_BOOT_FAILURES
    requires m.saved.change.None? && m.saved.recovery.None? && m.world.schedule.None? && m.world.plan.None?
    requires m.world.haVersion.Some?
    ensures var start, w := BootOf(m, f, o).1, m.saved.Wanted().value;
            && (start.Some? <==> m.world.haVersion.value <= w)
            && (start.Some? ==> start.value.version == w && start.value.world.writer == m.world.writer && start.value.ha.change.None?)
  {
    var a := Wake(m, f);
    assert a.CrashFallback(f) == a;
    var x := a.Install(f);
    assert x.ApplyConfigChanges(f) == x;
  }

  // ----- a switch back, and a restore by hand --------------------------------------------------

  /** A version asked for with the configuration kept is judged at its boot, against the one it was asked for on. */
  lemma KeptChangeIsJudged(m: Machine, to: Version, backup: string, f: Fate, o: Offer)
    requires Serving(m) && m.saved.Wanted().Some? && CanBeAsked(m, to, Keep, "") && backup !in m.world.backups
    requires Fair(f) && m.saved.failures < MAX_BOOT_FAILURES && m.saved.smoke.None?
    ensures var r := BootOf(ChangeVersionOf(m, to, Keep, "", backup, Nowhere).Down(), f, o).0;
            r.up == Some(to) && SmokeStarted(r).saved.smoke == Some(Smoke(to, m.up.value))
  {
    if m.world.schedule.Some? { HandScheduleExists(m); }
    var r := ChangeVersionOf(m, to, Keep, "", backup, Nowhere);
    ChangeIsAsked(m, to, Keep, "", backup);
    var a := Wake(r.Down(), f);
    var x := a.Install(f);
    assert a.CrashFallback(f) == a && x.state.smoke.None?;
    ChangeIsReady(x, to, Keep, Brought(m.world, Keep, ""), f);
    hide ChangeVersionOf, Work.ApplyConfigChanges, Work.Launch;
    StartsUp(x.ApplyConfigChanges(f), f);
  }

  lemma StartsUp(x: Work, f: Fate)
    requires Fair(f) && !x.ended && x.state.Wanted().Some? && (x.configFor == x.state.Wanted() || x.Kept(x.state.Wanted().value))
    ensures var r := x.Launch(f).0; r.up == x.state.Wanted() && r.saved.smoke == x.state.smoke && r.saved.change == x.state.change
  {
  }

  /** The version a smoke test goes back to is what the next boot starts, on the configuration prepared for it. */
  lemma SwitchBackComes(m: Machine, back: Version, merged: string, f: Fate, o: Offer)
    requires Serving(m) && m.settled && m.saved.Wanted() == m.up && !m.saved.Recovers(m.up.value) && m.world.schedule.None?
    requires m.saved.smoke == Some(Smoke(m.up.value, back)) && m.up != Some(back) && back in m.world.venvs && merged !in m.world.backups && Fair(f)
    ensures var start := BootOf(SwitchBackOf(m, merged, Nowhere).Down(), f, o).1;
            && start.Some? && start.value.version == back && start.value.world.writer == Some(back) && start.value.ha.fallbackFrom == m.up
            && start.value.ha.last.Some? && start.value.ha.last.value.backup == merged
  {
    var r := SwitchBackOf(m, merged, Nowhere);
    var a := Wake(r.Down(), f);
    var b := a.CrashFallback(f);
    assert b.state == a.state && b.world == a.world && b.Install(f) == b;
    hide Work.CrashFallback;
    OwnIsRestored(b, f, merged, back);
    hide SwitchBackOf, Work.ApplyConfigChanges, Work.Launch;
    ConfigurationStarts(b.ApplyConfigChanges(f), f);
  }

  /** What was restored by hand is applied by the next boot, and recorded. */
  lemma HandRestoreComes(m: Machine, name: string, storage: bool, f: Fate, o: Offer)
    requires Serving(m) && m.saved.Wanted().Some? && m.saved.failures < MAX_BOOT_FAILURES && Fair(f)
    requires name in m.world.backups && (storage ==> m.world.backups[name] <= m.saved.Wanted().value)
    requires m.saved.change.Some? ==> m.saved.change.value.mode == Keep || Some(m.saved.change.value.to) == m.up
    ensures var r := BootOf(RestoreByHandOf(m, name, storage, Nowhere).Down(), f, o).0;
            && r.saved.last.Some? && r.saved.last.value.ok && r.saved.last.value.backup == name && r.world.schedule.None?
            && (storage ==> r.world.writer == Some(m.world.backups[name]))
  {
    var r := RestoreByHandOf(m, name, storage, Nowhere);
    var a := Wake(r.Down(), f);
    assert a.CrashFallback(f) == a;
    var x := a.Install(f);
    HandIsRestored(x, f, name, storage);
    hide RestoreByHandOf, Work.ApplyConfigChanges, Work.Launch;
    LaunchKeeps(x.ApplyConfigChanges(f), f);
  }

  lemma HandIsRestored(x: Work, f: Fate, name: string, storage: bool)
    requires Fair(f) && !x.ended && !x.restored && x.state.Wanted().Some? && name in x.world.backups && (storage ==> x.world.backups[name] <= x.state.Wanted().value)
    requires x.world.schedule == Some(Schedule(name, None, storage, false, None)) && x.world.plan.None?
    ensures var y := x.ApplyConfigChanges(f);
            && !y.ended && y.state.Wanted().Some? && y.saved.last.Some? && y.saved.last.value.ok && y.saved.last.value.backup == name
            && y.state.last == y.saved.last && y.world.schedule.None? && (storage ==> y.world.writer == Some(x.world.backups[name]))
  {
  }

  lemma LaunchKeeps(x: Work, f: Fate)
    requires Fair(f) && x.state.Wanted().Some?
    ensures x.Launch(f).0.world == x.world && x.Launch(f).0.saved.last in {x.saved.last, x.state.last}
  {
  }

  /** A restore whose archive is gone is recorded as failed and not tried; what is there stays. */
  lemma OrphanGoes(x: Work, f: Fate)
    requires f.cut == Nowhere && f.archiveGone && !x.ended && !x.restored && x.state.Wanted().Some? && x.world.schedule.Some? && !x.world.schedule.value.begun
    ensures var y, r := x.ApplyRestore(f), x.world.schedule.value;
            && !y.ended && !y.restored && y.world == x.world.(schedule := None) && y.saved == y.state
            && y.saved.last.Some? && !y.saved.last.value.ok && y.saved.last.value.backup == r.backup && y.saved.last.value.at == x.world.now
  {
  }

  /** A restore for another version, or one the version that boots cannot read, goes without being tried. */
  lemma ForeignGoes(x: Work, f: Fate)
    requires f.cut == Nowhere && !x.ended && x.state.Wanted().Some? && x.world.schedule.Some? && (x.world.schedule.value.begun || !f.archiveGone)
    requires var r, w := x.world.schedule.value, x.state.Wanted().value;
             r.backup in x.world.backups && ((r.forVersion.Some? && r.forVersion != Some(w)) || (r.storage && x.world.backups[r.backup] > w))
    ensures x.ApplyRestore(f) == x.(world := x.world.(schedule := None))
  {
  }
}
