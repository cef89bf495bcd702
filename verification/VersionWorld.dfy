/** What ha.json and the volume say about versions, and when they are consistent: the wanted, current, previous and
    proven versions, the crash counter, a fallback with its configuration, a scheduled restore, a clean start, and
    the guard that refuses an older version. Versions are their sort keys. */
module VersionWorld {
  datatype Option<+T> = None | Some(value: T)

  type Version = nat

  const MAX_BOOT_FAILURES := 3

  /** The version that last booted: not recorded by an older manager, none yet, or that one. */
  datatype Proven = Unrecorded | NoneYet | Booted(version: Version)

  datatype Mode = Keep | Restore | Rebuild

  /** ``from``: the version it was asked for on. */
  datatype Change = Change(to: Version, mode: Mode, backup: string, applied: bool, at: nat, from: Version)

  /** Whether the integration sets up on ``version`` is still to be judged; if it does not, ``back`` is gone back to. */
  datatype Smoke = Smoke(version: Version, back: Version)

  datatype Recovery = Recovery(backup: string, left: Version, target: Version, at: nat)

  datatype LastRestore = LastRestore(ok: bool, backup: string, forVersion: Option<Version>, storage: bool, at: nat)

  /** ha.json. */
  datatype HaState = HaState(
    desired: Option<Version>, current: Option<Version>, previous: Option<Version>,
    proven: Proven, fallbackFrom: Option<Version>,
    recovery: Option<Recovery>, change: Option<Change>, failures: nat, last: Option<LastRestore>, smoke: Option<Smoke>)
  {
    function Wanted(): Option<Version> {
      if desired.Some? then desired else current
    }

    /** Where no proven version is recorded, the current one counts, unless it is what a change is about. */
    function Seeded(): HaState {
      if proven.Unrecorded? && current.Some? && !(change.Some? && change.value.to == current.value)
      then this.(proven := Booted(current.value)) else this
    }

    function FallbackTarget(): Option<Version> {
      if previous.Some? then previous else if recovery.Some? then Some(recovery.value.target) else None
    }

    /** Whether the crash counter takes the boot away from ``w``. */
    predicate Leaves(w: Version, venvs: set<Version>) {
      && failures >= MAX_BOOT_FAILURES
      && !(fallbackFrom.Some? && fallbackFrom != Some(w))
      && proven != Booted(w)
      && FallbackTarget().Some? && FallbackTarget() != Some(w) && FallbackTarget().value in venvs
    }

    /** ha.json knows a backup to restore when ``w`` is left: its change was applied, or an earlier fallback keeps it. */
    predicate CarriesBack(w: Version) {
      (change.Some? && change.value.to == w && change.value.applied) || (recovery.Some? && recovery.value.left == w)
    }

    /** Why ``w`` is not left, however often it crashes, without an older configuration. */
    predicate Stable(w: Version) {
      proven == Booted(w) || (fallbackFrom.Some? && fallbackFrom != Some(w)) || CarriesBack(w) || (change.Some? && change.value.to == w)
    }

    /** The last recorded outcome is the recovery's own restore, later than the recovery. */
    predicate AppliedBefore() {
      && recovery.Some? && last.Some? && last.value.ok
      && last.value.forVersion == Some(recovery.value.target)
      && last.value.backup == recovery.value.backup && last.value.at >= recovery.value.at
    }

    /** A fallback's configuration came back: at this boot, which ``restored`` one, or at one cut since. */
    predicate CameBack(restored: bool) {
      if restored then last.Some? && last.value.ok else AppliedBefore()
    }

    /** ``AppliedBefore`` for a change instead of a recovery. */
    predicate OwnBefore() {
      && change.Some? && last.Some? && last.value.ok && last.value.storage
      && last.value.forVersion == Some(change.value.to) && last.value.at >= change.value.at
    }

    /** With no boot counted as failed: nothing is left. */
    function Calm(): HaState {
      this.(failures := 0)
    }

    /** A recovery for the version wanted, which no change to that version overrides. */
    predicate Recovers(w: Version) {
      recovery.Some? && recovery.value.target == w && !(change.Some? && change.value.to == w)
    }
  }

  /** A scheduled restore. ``begun``: its pre-restore copy is taken, of a configuration ``before`` wrote. */
  datatype Schedule = Schedule(backup: string, forVersion: Option<Version>, storage: bool, begun: bool, before: Option<Version>)
  {
    predicate ByHand() {
      forVersion.None?
    }
  }

  datatype Stage = Reset | Renaming | Importing

  /** A clean start: .storage is emptied before ``to`` boots. Renaming: ``aside`` is the writer of the copy. */
  datatype Plan = Plan(to: Version, stage: Stage, aside: Option<Version>)

  function Max(a: Version, b: Version): Version { if a < b then b else a }

  predicate AtMost(writer: Option<Version>, v: Version) {
    writer.Some? ==> writer.value <= v
  }

  /** The guard before the start: ``file`` is .HA_VERSION, or the proven version when that says nothing. */
  predicate Refuses(w: Version, file: Option<Version>, proven: Proven, configFor: Option<Version>, kept: bool) {
    var writer := if file.Some? || !proven.Booted? then file else Some(proven.version);
    writer.Some? && w < writer.value && configFor != Some(w) && !kept
  }

  datatype Judgement = Consistent | Inconsistent

  /** Everything on the volume but ha.json; ``writer`` is the version that wrote .storage last (None: nobody). */
  datatype World = World(
    schedule: Option<Schedule>, plan: Option<Plan>, haVersion: Option<Version>, venvs: set<Version>,
    backups: map<string, Version>, now: nat, writer: Option<Version>)
  {
    /** What ha.json names is installed, and dated in the past. */
    ghost predicate Recorded(s: HaState) {
      && (s.current.Some? ==> s.current.value in venvs)
      && (s.recovery.Some? ==> s.recovery.value.left in venvs && s.recovery.value.at <= now && s.recovery.value.backup in backups)
      && (s.change.Some? ==> s.change.value.at <= now && s.change.value.backup in backups && (s.change.value.applied ==> s.change.value.to in venvs))
      && (s.last.Some? ==> s.last.value.at <= now && (s.last.value.ok && s.last.value.forVersion.Some? ==> s.last.value.forVersion.value in venvs))
    }

    /** No change beside a recovery, and no recovery into the version it leaves. Beside it lies its own restore, or one by
        hand that took its place. */
    ghost predicate RecoveryHolds(s: HaState) {
      s.recovery.Some? ==>
        && s.change.None? && s.recovery.value.left != s.recovery.value.target && s.recovery.value.target in venvs
        && (s.Wanted() == Some(s.recovery.value.target) || s.Wanted() == Some(s.recovery.value.left))
        && (s.Wanted() == Some(s.recovery.value.target) ==>
              && s.fallbackFrom == Some(s.recovery.value.left)
              && (plan.Some? && plan.value.stage == Renaming ==> s.AppliedBefore() && AtMost(plan.value.aside, s.recovery.value.target))
              && (schedule.Some? ==>
                    if schedule.value.ByHand() then
                      && s.proven == Booted(s.recovery.value.left) && haVersion == Some(s.recovery.value.left) && schedule.value.backup in backups
                      && (schedule.value.storage ==> backups[schedule.value.backup] <= s.recovery.value.target)
                    else schedule.value.backup == s.recovery.value.backup && schedule.value.forVersion == s.Wanted()))
    }

    /** Only a downgrade starts clean. */
    ghost predicate ChangeHolds(s: HaState) {
      s.change.Some? && s.change.value.mode == Rebuild ==> haVersion.Some? && s.change.value.to <= haVersion.value
    }

    /** A configuration newer than .HA_VERSION says belongs to the version wanted, which is not left without
        bringing back an older one. */
    ghost predicate Pinned(s: HaState, wr: Option<Version>) {
      && wr.Some? && s.Wanted().Some?
      && (var w := s.Wanted().value;
          && (s.Recovers(w) ==> s.AppliedBefore())
          && w in venvs && wr.value <= w && s.Stable(w)
          && (s.change.Some? && s.change.value.to == w && s.change.value.mode != Keep ==> s.OwnBefore() && (schedule.Some? ==> schedule.value.begun || s.Leaves(w, venvs)))
          && (s.Leaves(w, venvs) ==> s.CarriesBack(w)))
    }

    /** ... or a fallback is under way: the version wanted starts only once its configuration came back. */
    ghost predicate Returning(s: HaState, wr: Option<Version>) {
      && s.Wanted().Some? && s.Wanted().value in venvs && s.Recovers(s.Wanted().value)
      && AtMost(wr, s.recovery.value.left)
      && !s.Leaves(s.Wanted().value, venvs) && !s.AppliedBefore()
    }

    /** A restore by hand brought a newer configuration while a switch back waited, and was not taken for its own. */
    ghost predicate Strayed(s: HaState, wr: Option<Version>) {
      && (schedule.Some? ==> schedule.value.begun)
      && s.recovery.Some? && s.proven == Booted(s.recovery.value.left) && haVersion == Some(s.recovery.value.left)
      && s.last.Some? && s.last.value.ok && s.last.value.storage && s.last.value.at >= s.recovery.value.at
      && s.last.value.backup in backups && wr == Some(backups[s.last.value.backup])
    }

    ghost predicate Tracked(s: HaState, wr: Option<Version>) {
      Anchored(wr) || Pinned(s, wr) || Returning(s, wr) || Strayed(s, wr)
    }

    /** .HA_VERSION says enough. */
    predicate Anchored(wr: Option<Version>) {
      wr.None? || (haVersion.Some? && AtMost(wr, haVersion.value))
    }

    /** Restore ``r`` is applied by a boot of ``w``. */
    predicate Fits(r: Schedule, w: Version) {
      r.backup in backups && (r.ByHand() || r.forVersion == Some(w)) && (r.storage ==> backups[r.backup] <= w)
    }

    /** A begun restore of .storage makes ``writer`` irrelevant: both versions that can come up next, the wanted one and the
        current one in its stead, start it over. */
    predicate Redone(s: HaState) {
      && schedule.Some? && schedule.value.begun && schedule.value.storage && s.Wanted().Some? && !s.Leaves(s.Wanted().value, venvs)
      && Fits(schedule.value, s.Wanted().value)
      && (s.Wanted().value !in venvs ==> schedule.value.ByHand() && s.current.Some? && Fits(schedule.value, s.current.value))
    }

    /** Whether the next boot wants the same version again and does not leave it. */
    predicate Steady(s: HaState, w: Version) {
      s.Wanted() == Some(w) && w in venvs && !s.Leaves(w, venvs)
    }

    /** ... or cannot install the version wanted and goes on with the current one, ``w``. */
    predicate Heads(s: HaState, w: Version) {
      Steady(s, w) || (s.Wanted().Some? && s.Wanted().value !in venvs && !s.Leaves(s.Wanted().value, venvs) && s.current == Some(w))
    }

    /** A configuration ``wr`` wrote can come back whatever boots next. */
    ghost predicate Loose(s: HaState, wr: Option<Version>) {
      s.recovery.None? && !(s.change.Some? && s.change.value.applied) && Anchored(wr)
    }

    ghost predicate PlanHolds(s: HaState) {
      plan.Some? && plan.value.stage == Renaming ==>
        && schedule.None? && writer.None?
        && (s.OwnBefore() ==> AtMost(plan.value.aside, s.change.value.to))
        && ((Steady(s, plan.value.to) && Tracked(s, plan.value.aside)) || Loose(s, plan.value.aside))
    }

    /** What became of ``r`` is in ha.json. */
    predicate Ended(s: HaState, r: Schedule) {
      s.last.Some? && s.last.value.backup == r.backup && s.last.value.storage == r.storage
    }

    /** A restore that was begun: the next boot applies it as well, and what it puts back if it fails is tracked; or what it
        puts back is older than .HA_VERSION, and then the next boot applies it, unless it is over but for its schedule. */
    ghost predicate Continues(s: HaState, r: Schedule) {
      || (s.Wanted().Some? && Steady(s, s.Wanted().value) && Fits(r, s.Wanted().value) && Tracked(s.(last := None), r.before))
      || (r.ByHand() && Loose(s, r.before) && (GoesOn(s, r) || Ended(s, r)))
    }

    /** Whichever of the two versions boots next applies ``r``. */
    predicate GoesOn(s: HaState, r: Schedule) {
      && s.Wanted().Some? && !s.Leaves(s.Wanted().value, venvs) && Fits(r, s.Wanted().value)
      && (s.Wanted().value !in venvs ==> s.current.Some? && Fits(r, s.current.value))
    }

    ghost predicate ScheduleHolds(s: HaState) {
      schedule.Some? ==>
        var r := schedule.value;
        && r.backup in backups && (r.forVersion.Some? ==> r.storage)
        && (s.change.Some? && s.change.value.mode != Keep && r.ByHand() ==> haVersion.Some? && haVersion == s.Wanted() && haVersion.value in venvs)
        && (s.Wanted().Some? && r.storage && Fits(r, s.Wanted().value) ==>
              (haVersion.Some? && backups[r.backup] <= haVersion.value) || s.Stable(s.Wanted().value))
        && (r.begun ==> Continues(s, r) && (!r.storage ==> writer == r.before))
    }

    ghost predicate RestoresHold(s: HaState) {
      && (s.AppliedBefore() ==>
            && Steady(s, s.recovery.value.target) && (Redone(s) || AtMost(writer, s.recovery.value.target))
            && (schedule.Some? ==> schedule.value.begun && !schedule.value.ByHand()))
      && (s.OwnBefore() ==> Redone(s) || AtMost(writer, s.change.value.to))
    }

    /** A version that is asked for and not installed. */
    ghost predicate Awaits(s: HaState) {
      && s.current.Some? && s.current == haVersion
      && s.change.Some? && Some(s.change.value.to) == s.Wanted()
      && (schedule.Some? ==>
            && schedule.value.forVersion != s.current
            && (schedule.value.ByHand() && schedule.value.storage ==> schedule.value.backup in backups && backups[schedule.value.backup] <= s.Wanted().value))
    }

    ghost predicate Holds(s: HaState) {
      && Recorded(s) && RecoveryHolds(s) && ChangeHolds(s) && PlanHolds(s) && ScheduleHolds(s) && RestoresHold(s)
      && (Redone(s) || Tracked(s, writer))
      && (s.Wanted().None? ==> writer.None? && s.change.None? && s.failures == 0 && schedule.None? && plan.None?)
      && (s.Wanted().Some? && s.Wanted().value !in venvs ==> Awaits(s))
    }

    /** The verdict on the volume with this ha.json, as one value. */
    ghost function Judge(s: HaState): Judgement {
      if Holds(s) then Consistent else Inconsistent
    }

    // ----- leaving a version ------------------------------------------------------------------

    lemma LeavingIsTracked(s: HaState, w: Version)
      requires Judge(s) == Consistent && s.Wanted() == Some(w) && s.Leaves(w, venvs)
      ensures Anchored(writer) || (s.CarriesBack(w) && AtMost(writer, w) && w in venvs)
      ensures !s.AppliedBefore() && s.FallbackTarget() != Some(w) && Recorded(s)
      ensures plan.Some? && plan.value.stage == Renaming ==> Loose(s, plan.value.aside) && !s.CarriesBack(w)
      ensures schedule.Some? && schedule.value.begun ==> schedule.value.ByHand() && Loose(s, schedule.value.before) && !s.CarriesBack(w)
      ensures s.CarriesBack(w) ==> w in venvs
    {
    }

    /** A fallback from a switch that reached the storage, with its restore scheduled. */
    lemma FallbackWithConfiguration(s: HaState, w: Version, t: Version, backup: string)
      requires Judge(s) == Consistent && s.Wanted() == Some(w) && s.Leaves(w, venvs) && s.CarriesBack(w)
      requires s.FallbackTarget() == Some(t) && backup in backups
      requires s.last.Some? ==> s.last.value.at < now
      ensures this.(schedule := Some(Schedule(backup, Some(t), true, false, None))).Judge(
                s.(change := None, recovery := Some(Recovery(backup, w, t, now)), fallbackFrom := Some(w), desired := Some(t), failures := 0))
              == Consistent
    {
      LeavingIsTracked(s, w);
    }

    /** ... and one whose restore could not be scheduled: the version stays. */
    lemma FallbackNotScheduled(s: HaState, w: Version, t: Version, backup: string)
      requires Judge(s) == Consistent && s.Wanted() == Some(w) && s.Leaves(w, venvs) && s.CarriesBack(w)
      requires s.FallbackTarget() == Some(t) && backup in backups
      requires s.last.Some? ==> s.last.value.at < now
      ensures Judge(s.(change := None, recovery := Some(Recovery(backup, w, t, now)), failures := 0)) == Consistent
    {
      LeavingIsTracked(s, w);
    }

    lemma PlainFallback(s: HaState, w: Version, t: Version)
      requires Judge(s) == Consistent && s.Wanted() == Some(w) && s.Leaves(w, venvs) && !s.CarriesBack(w)
      requires s.FallbackTarget() == Some(t)
      ensures Judge(s.(change := None, fallbackFrom := Some(w), desired := Some(t), failures := 0)) == Consistent
    {
      LeavingIsTracked(s, w);
    }

    /** A restore for a fallback not yet recorded. */
    lemma ScheduledEarly(s: HaState, w: Version, t: Version, backup: string)
      requires Judge(s) == Consistent && s.Wanted() == Some(w) && s.Leaves(w, venvs) && s.CarriesBack(w) && s.FallbackTarget() == Some(t) && backup in backups
      ensures this.(schedule := Some(Schedule(backup, Some(t), true, false, None))).Judge(s) == Consistent
    {
      LeavingIsTracked(s, w);
    }

    // ----- a version to run -------------------------------------------------------------------

    lemma Installed(s: HaState, w: Version)
      requires Judge(s) == Consistent && s.Wanted() == Some(w) && !s.Leaves(w, venvs)
      ensures this.(venvs := venvs + {w}).Judge(s) == Consistent && this.(venvs := venvs + {w}).Steady(s, w)
    {
      hide HaState.Leaves, Tracked, HaState.Stable;
      InstalledTracks(s, w, writer);
      if plan.Some? { InstalledTracks(s, w, plan.value.aside); }
      if schedule.Some? { InstalledTracks(s, w, schedule.value.before); }
    }

    lemma InstalledTracks(s: HaState, w: Version, wr: Option<Version>)
      requires s.Wanted() == Some(w) && !s.Leaves(w, venvs)
      ensures var W := this.(venvs := venvs + {w});
              && (Tracked(s, wr) ==> W.Tracked(s, wr)) && (Tracked(s.(last := None), wr) ==> W.Tracked(s.(last := None), wr))
              && !s.Leaves(w, W.venvs)
    {
    }

    /** The current version stays; the counter is not asked again at this boot. */
    lemma NotInstalled(s: HaState)
      requires Judge(s) == Consistent && s.Wanted().Some? && s.Wanted().value !in venvs && !s.Leaves(s.Wanted().value, venvs)
      ensures Awaits(s) && Judge(s.(desired := s.current).Calm()) == Consistent && Heads(s, s.current.value) && Steady(s.(desired := s.current).Calm(), s.current.value)
      ensures Redone(s) || Anchored(writer)
      ensures s.recovery.None? && !s.change.value.applied && !s.OwnBefore()
      ensures schedule.Some? && schedule.value.begun ==> schedule.value.ByHand() && Anchored(schedule.value.before)
      ensures Redone(s) ==> Redone(s.(desired := s.current).Calm())
    {
    }

    /** What was judged without the crash counter can be recorded with it. */
    lemma Counted(s: HaState)
      requires Judge(s.Calm()) == Consistent && s.Wanted().Some? && s.Wanted().value in venvs
      requires s.Leaves(s.Wanted().value, venvs) ==>
                 && Loose(s, writer) && !s.OwnBefore() && (plan.Some? && plan.value.stage == Renaming ==> Loose(s, plan.value.aside))
                 && (schedule.Some? && schedule.value.begun ==> schedule.value.ByHand() && Loose(s, schedule.value.before) && Ended(s, schedule.value))
      ensures Judge(s) == Consistent
    {
      hide HaState.Leaves, Tracked, HaState.Stable;
      if s.Leaves(s.Wanted().value, venvs) {
        CountedTracks(s);
      } else {
        CalmTracks(s, writer);
        if plan.Some? { CalmTracks(s, plan.value.aside); }
        if schedule.Some? { CalmTracks(s, schedule.value.before); }
      }
    }

    lemma CountedTracks(s: HaState)
      requires s.Wanted().Some?
      ensures Anchored(writer) ==> Tracked(s, writer)
      ensures s.Stable(s.Wanted().value) == s.Calm().Stable(s.Wanted().value)
      ensures !s.Calm().Leaves(s.Wanted().value, venvs)
    {
    }

    lemma Calmed(s: HaState)
      requires Judge(s) == Consistent && s.Wanted().Some? && !s.Leaves(s.Wanted().value, venvs)
      ensures Judge(s.Calm()) == Consistent
    {
      hide HaState.Leaves, Tracked, HaState.Stable;
      CalmTracks(s, writer);
      if plan.Some? { CalmTracks(s, plan.value.aside); }
      if schedule.Some? { CalmTracks(s, schedule.value.before); }
    }

    lemma CalmTracks(s: HaState, wr: Option<Version>)
      requires s.Wanted().Some? && !s.Leaves(s.Wanted().value, venvs)
      ensures Tracked(s, wr) == Tracked(s.Calm(), wr) && Tracked(s.(last := None), wr) == Tracked(s.Calm().(last := None), wr)
      ensures !s.Calm().Leaves(s.Wanted().value, venvs) && s.Stable(s.Wanted().value) == s.Calm().Stable(s.Wanted().value)
    {
    }

    // ----- the scheduled restore --------------------------------------------------------------

    /** Whether the boot of ``w`` applies the scheduled restore. */
    predicate Applies(w: Version) {
      schedule.Some? && Fits(schedule.value, w)
    }

    function Unscheduled(): World {
      this.(schedule := None)
    }

    function Begun(): World
      requires schedule.Some?
    {
      if schedule.value.begun then this else this.(schedule := Some(schedule.value.(begun := true, before := writer)))
    }

    /** The restore was applied. */
    function Restored(): World
      requires schedule.Some? && schedule.value.backup in backups
    {
      if schedule.value.storage then this.(writer := Some(backups[schedule.value.backup])) else this
    }

    /** It failed, and what was there before was put back. */
    function PutBack(): World
      requires schedule.Some?
    {
      if schedule.value.storage then this.(writer := schedule.value.before) else this
    }

    function Outcome(ok: bool, w: Version): LastRestore
      requires schedule.Some?
    {
      var r := schedule.value;
      LastRestore(ok, r.backup, if r.forVersion == Some(w) then r.forVersion else None, r.storage, now)
    }

    lemma DroppedSchedule(s: HaState)
      requires Judge(s) == Consistent && !Redone(s)
      ensures Unscheduled().Judge(s) == Consistent
    {
    }

    /** With a restore waiting that was not begun, nothing rests on the last one. */
    lemma ForgetLast(s: HaState, w: Version)
      requires Judge(s) == Consistent && Steady(s, w) && schedule.Some? && !schedule.value.begun && Applies(w)
      ensures !s.AppliedBefore()
      ensures Tracked(s.(last := None), writer)
    {
    }

    lemma BeginRestore(s: HaState, w: Version)
      requires Judge(s) == Consistent && Heads(s, w) && Applies(w)
      ensures Begun().Judge(s) == Consistent && (schedule.value.storage ==> Begun().Redone(s))
    {
      if !schedule.value.begun && Steady(s, w) { ForgetLast(s, w); }
    }

    /** A begun restore may be cut anywhere. */
    lemma RestoreCut(s: HaState, wr: Option<Version>)
      requires Judge(s) == Consistent && Redone(s)
      ensures this.(writer := wr).Judge(s) == Consistent
    {
    }

    /** Which restore was the last one changes nothing about leaving a version. */
    lemma LastLeaves(s: HaState, l: Option<LastRestore>, w: Version)
      ensures var t := s.(last := l);
              && t.Leaves(w, venvs) == s.Leaves(w, venvs) && t.CarriesBack(w) == s.CarriesBack(w) && t.Stable(w) == s.Stable(w)
    {
    }

    lemma RestoreApplied(s: HaState, w: Version)
      requires Judge(s) == Consistent && Steady(s, w) && Applies(w) && schedule.value.begun
      ensures Restored().Judge(s.(last := Some(Outcome(true, w)))) == Consistent
    {
      hide HaState.Leaves, HaState.CarriesBack, HaState.Stable;
      LastLeaves(s, Some(Outcome(true, w)), w);
      LastLeaves(s, None, w);
    }

    lemma RestoreAppliedForGood(s: HaState, w: Version)
      requires Judge(s) == Consistent && Steady(s, w) && Applies(w) && schedule.value.begun
      ensures Restored().Unscheduled().Judge(s.(last := Some(Outcome(true, w)))) == Consistent
    {
    }

    lemma RestorePutBack(s: HaState, w: Version)
      requires Judge(s) == Consistent && Steady(s, w) && Applies(w) && schedule.value.begun
      ensures PutBack().Judge(s.(last := Some(Outcome(false, w)))) == Consistent
    {
      hide HaState.Leaves, HaState.CarriesBack, HaState.Stable;
      LastLeaves(s, Some(Outcome(false, w)), w);
      LastLeaves(s, None, w);
    }

    lemma RestorePutBackForGood(s: HaState, w: Version)
      requires Judge(s) == Consistent && Steady(s, w) && Applies(w) && schedule.value.begun
      ensures PutBack().Unscheduled().Judge(s.(last := Some(Outcome(false, w)))) == Consistent
    {
    }

    /** Nothing was begun, so a schedule may go together with any record of failure. */
    lemma OrphanRecorded(s: HaState, w: Version, l: LastRestore)
      requires Judge(s) == Consistent && Steady(s, w) && schedule.Some? && !schedule.value.begun && !l.ok && l.at <= now
      ensures Judge(s.(last := Some(l))) == Consistent
    {
    }

    // ----- what the boot concludes ------------------------------------------------------------

    /** A fallback's configuration came back, or the restore that stands in for it was applied. */
    lemma RecoveryDone(s: HaState, w: Version)
      requires Judge(s) == Consistent && Steady(s, w) && s.Recovers(w) && schedule.None?
      requires s.AppliedBefore() || (s.last.Some? && s.last.value.ok && (AtMost(writer, w) || Anchored(writer)))
      ensures Judge(s.(recovery := None)) == Consistent
      ensures s.AppliedBefore() ==> AtMost(writer, w)
    {
    }

    /** A fallback whose configuration did not come back stays on the version that was left. */
    lemma RecoveryMissed(s: HaState, w: Version)
      requires Judge(s) == Consistent && Steady(s, w) && s.Recovers(w) && schedule.None? && !s.AppliedBefore()
      ensures Judge(s.(desired := Some(s.recovery.value.left))) == Consistent
    {
    }

    lemma ChangeDropped(s: HaState, w: Version)
      requires Judge(s) == Consistent && Steady(s, w) && schedule.None? && (plan.Some? ==> plan.value.stage != Renaming)
      requires s.change.Some? && s.change.value.to != w
      ensures Judge(s.(change := None)) == Consistent
    {
    }

    /** The plan and the clock change nothing about what is tracked. */
    lemma SameTracks(W: World, s: HaState, wr: Option<Version>)
      requires W == this.(plan := W.plan, now := W.now)
      ensures W.Tracked(s, wr) == Tracked(s, wr) && W.Redone(s) == Redone(s)
    {
    }

    lemma PlanDropped(s: HaState)
      requires Judge(s) == Consistent
      ensures this.(plan := None).Judge(s) == Consistent
    {
      hide Tracked, Redone;
      SameTracks(this.(plan := None), s, writer);
      if schedule.Some? { SameTracks(this.(plan := None), s.(last := None), schedule.value.before); }
    }

    lemma AsidePutBack(s: HaState)
      requires Judge(s) == Consistent && plan.Some? && plan.value.stage == Renaming
      ensures this.(writer := plan.value.aside, plan := Some(plan.value.(stage := Reset))).Judge(s) == Consistent
    {
    }

    lemma StorageSetAside(s: HaState, w: Version)
      requires Judge(s) == Consistent && schedule.None? && plan.Some? && plan.value.to == w
      requires (Steady(s, w) && (s.Recovers(w) ==> s.AppliedBefore())) || Loose(s, writer)
      ensures this.(plan := Some(Plan(w, Renaming, writer)), writer := None).Judge(s) == Consistent
    {
    }

    lemma StorageEmptied(s: HaState, p: Plan)
      requires Judge(s) == Consistent && schedule.None? && s.Wanted().Some? && p.stage == Importing
      ensures this.(plan := Some(p), writer := None).Judge(s) == Consistent
    {
    }

    /** The change is not applied, so its target takes nothing along: the current version is as safe as before it. */
    lemma ChangeMissed(s: HaState, w: Version)
      requires Judge(s) == Consistent && Steady(s, w) && schedule.None? && (plan.Some? ==> plan.value.stage != Renaming)
      requires s.change.Some? && s.change.value.to == w && s.current.Some?
      requires s.change.value.mode == Restore ==> !s.OwnBefore()
      requires s.change.value.mode != Keep && s.failures == 0
      ensures Judge(s.(desired := s.current, change := None)) == Consistent
    {
    }

    lemma ChangeApplied(s: HaState, w: Version)
      requires Judge(s) == Consistent && Steady(s, w) && schedule.None? && s.change.Some? && s.change.value.to == w
      requires plan.Some? ==> plan.value.stage != Renaming
      ensures Judge(s.(change := Some(s.change.value.(applied := true)))) == Consistent
    {
    }

    /** ha.json once ``w`` is what boots, with the crash counter at ``count``. */
    function Committed(s: HaState, w: Version, rollback: Option<Version>, count: nat): HaState {
      s.(previous := rollback, current := Some(w), desired := if s.desired.Some? then s.desired else Some(w),
         proven := if s.proven.Unrecorded? then NoneYet else s.proven, failures := count)
    }

    /** Whatever the counter says: the version that starts is then left only with what it should be left with. */
    lemma CommitHolds(s: HaState, w: Version, rollback: Option<Version>, count: nat)
      requires Judge(s.Calm()) == Consistent && s.Wanted() == Some(w) && w in venvs && schedule.None?
      requires plan.Some? ==> plan.value.stage != Renaming
      requires !s.Recovers(w) && (s.change.Some? ==> s.change.value.to == w && s.change.value.applied)
      ensures Judge(Committed(s, w, rollback, count)) == Consistent
    {
    }

    /** An older version may start on a .storage that is not its own: a clean start for it waits to be finished, though
        .storage holds something and a newer version ran. */
    predicate Unfinished(w: Version) {
      plan.Some? && plan.value.to == w && plan.value.stage == Importing && writer.Some? && haVersion.Some? && w < haVersion.value
    }

    /** ... or on what a restore by hand left that a switch back did not wait for. */
    predicate Stray(s: HaState, w: Version) {
      && s.recovery.Some? && s.recovery.value.left == w
      && s.last.Some? && s.last.value.ok && s.last.value.storage && s.last.value.at >= s.recovery.value.at
      && s.last.value.backup in backups && w < backups[s.last.value.backup]
    }

    predicate Rebuilt(w: Version) {
      plan.Some? && plan.value.to == w && plan.value.stage == Importing
    }

    /** Version ``w`` does not start on a newer configuration, but where it was asked to and in two cases the files show. */
    predicate Safe(s: HaState, w: Version, kept: bool) {
      AtMost(writer, w) || kept || Unfinished(w) || Stray(s, w)
    }

    lemma GuardIsSafe(s: HaState, w: Version, configFor: Option<Version>, kept: bool)
      requires Judge(s.Calm()) == Consistent && s.Wanted() == Some(w) && !s.Recovers(w) && schedule.None?
      requires configFor == Some(w) ==> Rebuilt(w) || AtMost(writer, w)
      requires !Refuses(w, haVersion, s.proven, configFor, kept)
      ensures Safe(s, w, kept)
    {
    }

    // ----- while Home Assistant runs ----------------------------------------------------------

    function Tick(): World {
      this.(now := now + 1)
    }

    lemma Ticked(s: HaState)
      requires Judge(s) == Consistent
      ensures Tick().Judge(s) == Consistent
      ensures s.last.Some? ==> s.last.value.at < Tick().now
    {
      hide Tracked, Redone;
      SameTracks(Tick(), s, writer);
      if plan.Some? { SameTracks(Tick(), s, plan.value.aside); }
      if schedule.Some? { SameTracks(Tick(), s.(last := None), schedule.value.before); }
    }

    lemma Seeded(s: HaState)
      requires Judge(s) == Consistent
      ensures Judge(s.Seeded()) == Consistent
    {
      hide HaState.Stable, Tracked, Steady, HaState.Leaves, HaState.CarriesBack;
      if s.Seeded() != s {
        var booted := s.(proven := Booted(s.current.value));
        assert s.Seeded() == booted && booted.Wanted() == s.Wanted();
        SeededIsNoLessStable(s, booted);
        forall wr | Tracked(s, wr) ensures Tracked(booted, wr) { SeededIsTracked(s, booted, wr); }
        forall wr | Tracked(s.(last := None), wr) ensures Tracked(booted.(last := None), wr) {
          SeededIsTracked(s.(last := None), booted.(last := None), wr);
        }
      }
    }

    /** A version known to have booted is left less often. */
    lemma SeededIsNoLessStable(s: HaState, booted: HaState)
      requires s.proven.Unrecorded? && booted == s.(proven := booted.proven)
      ensures forall w :: s.Stable(w) ==> booted.Stable(w)
      ensures forall w :: booted.Leaves(w, venvs) ==> s.Leaves(w, venvs)
      ensures forall w :: s.CarriesBack(w) == booted.CarriesBack(w)
      ensures forall w :: Steady(s, w) ==> Steady(booted, w)
    {
    }

    lemma SeededIsTracked(s: HaState, booted: HaState, wr: Option<Version>)
      requires s.proven.Unrecorded? && booted.proven.Booted? && booted == s.(proven := booted.proven) && Tracked(s, wr)
      requires s.change.Some? ==> s.change.value.to != booted.proven.version
      ensures Tracked(booted, wr)
    {
      SeededIsNoLessStable(s, booted);
    }

    /** Version ``v`` was started. ``wrote``: it has written .HA_VERSION and .storage. */
    ghost predicate Runs(s: HaState, v: Version, wrote: bool) {
      && Holds(s) && s.current == Some(v) && v in venvs && !s.proven.Unrecorded?
      && (plan.Some? ==> plan.value.stage != Renaming)
      && (schedule.Some? ==> !schedule.value.begun && schedule.value.forVersion != Some(v))
      && !s.AppliedBefore() && (s.OwnBefore() ==> s.change.value.to == v)
      && (s.change.Some? ==> s.Wanted() == Some(s.change.value.to))
      && (if wrote then
            && haVersion == writer == Some(v) && s.Wanted().Some? && (s.Wanted() == Some(v) || s.change.Some? || s.Recovers(s.Wanted().value))
            && (s.Recovers(s.Wanted().value) ==> s.recovery.value.left == v && s.proven == Booted(v))
          else s.Wanted() == Some(v) && schedule.None? && !s.Recovers(v))
    }

    ghost function Running(s: HaState, v: Version, wrote: bool): Judgement {
      if Runs(s, v, wrote) then Consistent else Inconsistent
    }

    lemma RunningHolds(s: HaState, v: Version, wrote: bool)
      requires Running(s, v, wrote) == Consistent
      ensures Judge(s) == Consistent && s.current == Some(v) && v in venvs && s.Wanted().Some?
    {
    }

    /** The first version of a volume on which none is recorded. */
    lemma FirstHolds(s: HaState, w: Version)
      requires Judge(s) == Consistent && s.Wanted().None?
      ensures this.(venvs := venvs + {w}).Judge(s.(desired := Some(w))) == Consistent
      ensures this.(venvs := venvs + {w}).Judge(s) == Consistent
    {
    }

    lemma Started(s: HaState, w: Version, rollback: Option<Version>, count: nat)
      requires Judge(s.Calm()) == Consistent && s.Wanted() == Some(w) && w in venvs && schedule.None?
      requires plan.Some? ==> plan.value.stage != Renaming
      requires !s.Recovers(w) && (s.change.Some? ==> s.change.value.to == w && s.change.value.applied)
      ensures Running(Committed(s, w, rollback, count), w, false) == Consistent
    {
      CommitHolds(s, w, rollback, count);
    }

    /** Home Assistant ``v`` wrote .HA_VERSION and its stores. */
    function Written(v: Version): World {
      this.(haVersion := Some(v), writer := Some(v))
    }

    lemma WrittenRuns(s: HaState, v: Version, wrote: bool)
      requires Running(s, v, wrote) == Consistent
      ensures Written(v).Running(s, v, true) == Consistent
    {
    }

    /** The boot of ``v`` is good: what was recorded for it goes. */
    function Settled(s: HaState, v: Version): HaState {
      s.(failures := 0, proven := Booted(v), fallbackFrom := None,
         change := if s.change.Some? && s.change.value.to == v then None else s.change,
         recovery := if s.recovery.Some? && (s.recovery.value.target == v || s.recovery.value.left == v) then None else s.recovery)
    }

    lemma SettledRuns(s: HaState, v: Version)
      requires Running(s, v, true) == Consistent && s.Wanted().Some? && !s.Recovers(s.Wanted().value)
      ensures Running(Settled(s, v), v, true) == Consistent
    {
    }

    /** A stop is not a crash. */
    lemma StoppedRuns(s: HaState, v: Version, wrote: bool)
      requires Running(s, v, wrote) == Consistent && s.failures > 0
      ensures Running(s.(failures := s.failures - 1), v, wrote) == Consistent
    {
    }

    lemma BackedUp(s: HaState, v: Version, name: string, made: Version)
      requires Running(s, v, true) == Consistent && name !in backups
      ensures this.(backups := backups[name := made]).Running(s, v, true) == Consistent
    {
    }

    lemma TickedRuns(s: HaState, v: Version)
      requires Running(s, v, true) == Consistent
      ensures Tick().Running(s, v, true) == Consistent
    {
    }

    /** A schedule for ``to`` without a record of the change fits no version that can boot yet. */
    lemma ScheduledFor(s: HaState, v: Version, backup: string, to: Version)
      requires Running(s, v, true) == Consistent && backup in backups && backups[backup] <= to && to != v
      requires !s.Recovers(s.Wanted().value)
      ensures this.(schedule := Some(Schedule(backup, Some(to), true, false, None))).Running(s, v, true) == Consistent
    {
    }

    lemma UnscheduledRuns(s: HaState, v: Version)
      requires Running(s, v, true) == Consistent
      ensures Unscheduled().Running(s, v, true) == Consistent
    {
    }

    lemma Planned(s: HaState, v: Version, to: Version)
      requires Running(s, v, true) == Consistent
      ensures this.(plan := Some(Plan(to, Reset, None))).Running(s, v, true) == Consistent
    {
    }

    lemma UnplannedRuns(s: HaState, v: Version)
      requires Running(s, v, true) == Consistent
      ensures this.(plan := None).Running(s, v, true) == Consistent
    {
    }

    /** A restore scheduled by hand, for whatever boots next. */
    lemma ScheduledByHand(s: HaState, v: Version, backup: string, storage: bool)
      requires Running(s, v, true) == Consistent && backup in backups && (storage ==> backups[backup] <= s.Wanted().value)
      requires s.change.Some? && s.change.value.mode != Keep ==> s.change.value.to == v
      ensures this.(schedule := Some(Schedule(backup, None, storage, false, None))).Running(s, v, true) == Consistent
    {
    }

    function Requested(s: HaState, to: Version, change: Option<Change>): HaState {
      s.(desired := Some(to), recovery := None, change := change)
    }

    lemma RequestRuns(s: HaState, v: Version, to: Version, mode: Mode, backup: string)
      requires Running(s, v, true) == Consistent && to != v && backup in backups
      requires s.last.Some? ==> s.last.value.at < now
      requires mode == Rebuild ==> to < v
      requires schedule.Some? && schedule.value.ByHand() ==> mode == Keep && (schedule.value.storage ==> backups[schedule.value.backup] <= to)
      ensures Running(Requested(s, to, Some(Change(to, mode, backup, false, now, v))), v, true) == Consistent
    {
    }

    lemma CancelRuns(s: HaState, v: Version)
      requires Running(s, v, true) == Consistent && (schedule.Some? ==> schedule.value.forVersion.None?)
      ensures Running(Requested(s, v, None), v, true) == Consistent
    {
    }

    /** ha.json after the one write that gives up ``v`` for ``back``. */
    function SwitchedBack(s: HaState, v: Version, back: Version, backup: string): HaState {
      s.(desired := Some(back), fallbackFrom := Some(v), recovery := Some(Recovery(backup, v, back, now)), change := None, smoke := None)
    }

    lemma SwitchBackRuns(s: HaState, v: Version, back: Version, backup: string)
      requires Running(s, v, true) == Consistent && s.Wanted() == Some(v) && s.proven == Booted(v) && back != v && back in venvs
      requires s.last.Some? ==> s.last.value.at < now
      requires backup in backups && backups[backup] <= back
      requires schedule == Some(Schedule(backup, Some(back), true, false, None))
      ensures Running(SwitchedBack(s, v, back, backup), v, true) == Consistent
    {
    }
  }
}
