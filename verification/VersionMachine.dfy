/** Which Home Assistant version a boot starts, on which configuration, as it happens: ha.json and the volume's files are
    changed one at a time, and each step of a boot or a request does what the functions of VersionBoot say. */
module VersionMachine {
  import opened VersionWorld
  import opened VersionHistory
  import opened VersionBoot
  import opened VersionProof
  import opened VersionLife

  class Volume {
    var saved: HaState                  // ha.json
    var state: HaState                  // what the boot works on
    var configFor: Option<Version>      // never saved
    var schedule: Option<Schedule>      // restore-pending.json
    var plan: Option<Plan>              // the clean start's plan
    var haVersion: Option<Version>      // .HA_VERSION
    var venvs: set<Version>
    var backups: map<string, Version>   // the version each was made on
    var now: nat
    var up: Option<Version>             // the version that runs
    var wrote: bool                     // ... has written its configuration
    var settled: bool                   // ... and its boot no longer counts as a failed one

    var writer: Option<Version>         // .storage: who wrote it last; None: nobody. Only the plan's copy reads this
    ghost var told: History

    constructor ()
      ensures Value() == Fresh && Alive(Value())
    {
      up, wrote, settled := None, false, false;
      saved := Fresh.saved;
      state := Fresh.saved;
      configFor, schedule, plan, haVersion, venvs, backups, now := None, None, None, None, {}, map[], 0;
      writer, told := None, Fresh.told;
      new;
      FreshIsAlive();
    }

    ghost function Files(): World
      reads this
    {
      World(schedule, plan, haVersion, venvs, backups, now, writer)
    }

    ghost function Value(): Machine
      reads this
    {
      Machine(saved, Files(), told, up, wrote, settled)
    }

    /** The boot at work. */
    ghost function Doing(failures: nat, fellBack: bool, restored: bool): Work
      reads this
    {
      Work(saved, state, Files(), told, configFor, failures, fellBack, restored, false)
    }

    /** The boot has come to ``x``; killed, it leaves what is on the volume. */
    ghost predicate Reached(x: Work, killed: bool, failures: nat, fellBack: bool, restored: bool)
      reads this
    {
      killed == x.ended && if killed then Machine(saved, Files(), told, None, false, false) == x.Rest() else Doing(failures, fellBack, restored) == x
    }

    // ----- a boot -----------------------------------------------------------------------------

    method Save()
      modifies this`saved
      ensures saved == state
    {
      saved := state;
    }

    /** Schedule the restore of ``backup`` for the boot of ``target``, replacing what was scheduled. */
    method ScheduleFor(backup: string, target: Version, schedules: bool) returns (ok: bool)
      modifies this`schedule
      ensures ok == (schedules && backup in backups && backups[backup] <= target)
      ensures schedule == if ok then Some(Own(backup, target)) else old(schedule)
    {
      ok := schedules && backup in backups && backups[backup] <= target;
      if ok { schedule := Some(Schedule(backup, Some(target), true, false, None)); }
    }

    /** What leaving ``failed`` owes is scheduled for ``target`` and entered as the recovery. Not ``ok``: it is entered, but
        nothing is scheduled, so the caller must not leave. */
    method RestoreAfterFailedChange(failed: Version, target: Version, f: Fate) returns (ok: bool)
      modifies this`state, this`schedule
      ensures var owed := old(Doing(0, false, false).Owed(failed, target));
              && ok == old(Doing(0, false, false)).Schedules(owed, target, f)
              && state == old(state).(change := None, recovery := if owed.Some? then owed else old(state).recovery)
              && schedule == if ok && owed.Some? then Some(Own(owed.value.backup, target)) else old(schedule)
    {
      var change := state.change;
      state := state.(change := None);
      if change.Some? && change.value.to == failed && change.value.applied {
        state := state.(recovery := Some(Recovery(change.value.backup, failed, target, now)));
      } else if state.recovery.Some? && state.recovery.value.left == failed {
        state := state.(recovery := Some(state.recovery.value.(target := target, at := now)));
      } else {
        return true;
      }
      ok := ScheduleFor(state.recovery.value.backup, target, f.schedules);
    }

    /** ``Leaves`` decides. Where a configuration is owed, the version goes only once its restore is scheduled; ha.json is
        saved either way, with the count at zero. */
    method CrashFallback(f: Fate, ghost failures: nat) returns (killed: bool, fellBack: bool)
      requires state.Wanted().Some?
      modifies this`saved, this`state, this`schedule, this`told
      ensures Reached(old(Doing(failures, false, false)).CrashFallback(f), killed, failures, fellBack, false)
    {
      killed, fellBack := false, false;
      var wanted := state.Wanted().value;
      if state.failures < MAX_BOOT_FAILURES { return; }
      if state.Leaves(wanted, venvs) {
        ghost var was := state;
        var target := state.FallbackTarget().value;
        var ok := RestoreAfterFailedChange(wanted, target, f);
        if f.cut == FallbackScheduled { return true, false; }
        if ok {
          state := state.(fallbackFrom := Some(wanted), desired := Some(target));
          fellBack := true;
        }
        state := state.(failures := 0);
        told := told.FellBack(was, wanted, state);
      }
      Save();
      killed := f.cut == FallbackSaved;
    }

    /** After this the wanted version is one of ``venvs``, or the boot is over. */
    method Install(f: Fate, ghost failures: nat, ghost fellBack: bool) returns (killed: bool)
      requires state.Wanted().Some?
      modifies this`state, this`venvs
      ensures Reached(old(Doing(failures, fellBack, false)).Install(f), killed, failures, fellBack, false)
    {
      killed := false;
      var wanted := state.Wanted().value;
      if wanted in venvs { return; }
      if f.installs {
        venvs := venvs + {wanted};
        killed := f.cut == Installed;
      } else if state.current.Some? {
        state := state.(desired := state.current);
      } else {
        killed := true;  // nothing to run: the boot ends
      }
    }

    method DropOrphan(f: Fate, ghost failures: nat, ghost fellBack: bool) returns (killed: bool)
      modifies this`saved, this`state, this`schedule
      ensures Reached(old(Doing(failures, fellBack, false)).DropOrphan(f), killed, failures, fellBack, false)
      ensures schedule.None? || schedule == old(schedule)
    {
      killed := false;
      if schedule.None? || schedule.value.begun || !f.archiveGone { return; }
      var r := schedule.value;
      state := state.(last := Some(LastRestore(false, r.backup, r.forVersion, r.storage, now)));
      Save();
      if f.cut == OrphanRecorded { return true; }
      schedule := None;
      killed := f.cut == OrphanDropped;
    }

    /** Two checks, as what is scheduled was right for the version that was to boot then. */
    method DropForeign(f: Fate, ghost failures: nat, ghost fellBack: bool) returns (killed: bool)
      requires state.Wanted().Some? && (schedule.Some? ==> schedule.value.backup in backups)
      modifies this`schedule
      ensures Reached(old(Doing(failures, fellBack, false)).DropForeign(f), killed, failures, fellBack, false)
      ensures schedule.None? || schedule == old(schedule)
    {
      killed := false;
      if schedule.None? { return; }
      var wanted, r := state.Wanted().value, schedule.value;
      if r.forVersion.Some? && r.forVersion != Some(wanted) {
        schedule, killed := None, f.cut == ForeignDropped;
      } else if r.storage && backups[r.backup] > wanted {
        schedule, killed := None, f.cut == ForeignDropped;
      }
    }

    /** Apply the scheduled restore, record its outcome, drop the schedule. What it replaces is copied first, and comes
        back if it fails. */
    method ApplyPending(f: Fate, ghost failures: nat, ghost fellBack: bool) returns (killed: bool, restored: bool)
      requires state.Wanted().Some? && (schedule.Some? ==> schedule.value.backup in backups)
      modifies this`saved, this`state, this`schedule, this`writer, this`told
      ensures Reached(old(Doing(failures, fellBack, false)).ApplyPending(f), killed, failures, fellBack, restored)
    {
      killed, restored := false, false;
      if schedule.None? { return; }
      if !schedule.value.begun { schedule := Some(schedule.value.(begun := true, before := writer)); }
      if f.cut == CopyTaken { return true, false; }
      var r := schedule.value;
      if f.cut == HalfRestored {
        if r.storage { writer := f.half; }
        return true, false;
      }
      killed := Conclude(f, failures, fellBack);
      restored := true;
    }

    method Conclude(f: Fate, ghost failures: nat, ghost fellBack: bool) returns (killed: bool)
      requires state.Wanted().Some? && schedule.Some? && schedule.value.backup in backups
      modifies this`saved, this`state, this`schedule, this`writer, this`told
      ensures Reached(old(Doing(failures, fellBack, false)).Conclude(old(Files()), f), killed, failures, fellBack, true)
    {
      hide Work.Outcome;
      killed := Outcome(f, failures, fellBack);
      if killed { return; }
      schedule := None;
      killed := f.cut == ScheduleRemoved;
    }

    method Outcome(f: Fate, ghost failures: nat, ghost fellBack: bool) returns (killed: bool)
      requires state.Wanted().Some? && schedule.Some? && schedule.value.backup in backups
      modifies this`saved, this`state, this`writer, this`told
      ensures Reached(old(Doing(failures, fellBack, false)).Outcome(old(Files()), f), killed, failures, fellBack, true)
    {
      hide History.Concluded;
      var r := schedule.value;
      if r.storage { writer := if f.restores then Some(backups[r.backup]) else r.before; }
      told := told.Concluded(state, r, f.restores);
      var own := if r.forVersion == state.Wanted() then r.forVersion else None;
      state := state.(last := Some(LastRestore(f.restores, r.backup, own, r.storage, now)));
      Save();
      killed := f.cut == OutcomeSaved;
    }

    method ApplyRestore(f: Fate, ghost failures: nat, ghost fellBack: bool) returns (killed: bool, restored: bool)
      requires state.Wanted().Some? && (schedule.Some? ==> schedule.value.backup in backups)
      modifies this`saved, this`state, this`schedule, this`writer, this`told
      ensures Reached(old(Doing(failures, fellBack, false)).ApplyRestore(f), killed, failures, fellBack, restored)
    {
      hide Work.DropOrphan, Work.DropForeign, Work.ApplyPending;
      restored := false;
      killed := DropOrphan(f, failures, fellBack);
      if killed { return; }
      killed := DropForeign(f, failures, fellBack);
      if killed { return; }
      killed, restored := ApplyPending(f, failures, fellBack);
    }

    /** A fallback's recovery: its restore came through, at this boot or at one that was killed since; or the version
        that was left stays (``goesOn`` is false). */
    method SettleRecovery(restored: bool, ghost failures: nat, ghost fellBack: bool) returns (goesOn: bool)
      requires state.Wanted().Some?
      modifies this`state, this`configFor
      ensures var x := old(Doing(failures, fellBack, restored)).SettleRecovery(); state == x.state && configFor == x.configFor
      ensures goesOn == !old(Doing(failures, fellBack, restored)).Missed()
    {
      goesOn := true;
      var wanted := state.Wanted().value;
      var ok := state.last.Some? && state.last.value.ok;
      if restored && ok && state.last.value.storage { configFor := Some(wanted); }
      if state.Recovers(wanted) {
        var applied := state.AppliedBefore();
        if (restored && ok) || (!restored && applied) {
          state := state.(recovery := None);
          if !restored { configFor := Some(wanted); }
        } else {
          goesOn := false;
          state := state.(desired := Some(state.recovery.value.left));
        }
      }
    }

    /** Either ``writer`` becomes nobody and the plan remembers whose copy was set aside, or the plan goes. */
    method ResetStorage(restored: bool, f: Fate, ghost failures: nat, ghost fellBack: bool) returns (killed: bool)
      requires state.Wanted().Some?
      modifies this`plan, this`writer
      ensures Reached(old(Doing(failures, fellBack, restored)).ResetStorage(f), killed, failures, fellBack, restored)
    {
      killed := false;
      if plan.None? { return; }
      var wanted, p := state.Wanted().value, plan.value;
      var ok := restored && state.last.Some? && state.last.value.ok;
      if ok || (restored && !ok && wanted != p.to) || (p.stage != Importing && (wanted != p.to || f.sourceGone)) {
        killed := DropPlan(ok && state.last.value.storage, f);
        return;
      }
      if p.stage == Importing { return; }
      if p.stage == Reset {
        if !f.setsAside { return; }  // stands for both that can fail before .storage moves
        plan, writer := Some(Plan(wanted, Renaming, writer)), None;
        if f.cut == StorageSetAside { return true; }
      }
      plan := Some(plan.value.(stage := Importing));
      killed := f.cut == StorageEmptied;
    }

    method DropPlan(storageRestored: bool, f: Fate) returns (killed: bool)
      requires plan.Some?
      modifies this`plan, this`writer
      ensures var p := old(plan).value;
              var back := p.stage == Renaming && !storageRestored && old(writer).None? && f.putsBack;
              && writer == (if back then p.aside else old(writer))
              && plan == (if back && f.cut == AsideReturned then Some(p.(stage := Reset)) else None)
              && killed == ((back && f.cut == AsideReturned) || f.cut == PlanRemoved)
    {
      if plan.value.stage == Renaming && !storageRestored && writer.None? && f.putsBack {
        writer, plan := plan.value.aside, Some(plan.value.(stage := Reset));
        if f.cut == AsideReturned { return true; }
      }
      plan := None;
      killed := f.cut == PlanRemoved;
    }

    /** A version change: applied, once what it needs has happened; otherwise the current version stays. */
    method CompleteChange(restored: bool, ghost failures: nat, ghost fellBack: bool)
      requires state.Wanted().Some?
      modifies this`state, this`configFor
      ensures var x := old(Doing(failures, fellBack, restored)).CompleteChange(); state == x.state && configFor == x.configFor
    {
      hide Work.Misses;
      ghost var x := Doing(failures, fellBack, restored);
      var wanted := state.Wanted().value;
      var rebuilt := plan.Some? && plan.value.to == wanted && plan.value.stage == Importing;
      if rebuilt { configFor := Some(wanted); }
      if state.change.None? { return; }
      var change := state.change.value;
      if change.to != wanted {
        state := state.(change := None);
        return;
      }
      var own := state.last.Some? && state.last.value.ok && state.last.value.storage && state.last.value.forVersion == Some(wanted);
      var ownBefore := !restored && own && state.last.value.at >= change.at;
      var done := (change.mode == Restore && ((restored && own) || ownBefore)) || (change.mode == Rebuild && rebuilt);
      if ownBefore { configFor := Some(wanted); }
      var stays := change.mode != Keep && !done && state.current.Some? && state.current != Some(wanted);
      DoneMeans(x, wanted, stays);
      if stays {
        state := state.(desired := state.current, change := None);
        return;
      }
      state := state.(change := Some(change.(applied := true)));
    }

    lemma DoneMeans(x: Work, w: Version, stays: bool)
      requires x.state.change.Some? && x.state.change.value.to == w
      requires var own := x.state.last.Some? && x.state.last.value.ok && x.state.last.value.storage && x.state.last.value.forVersion == Some(w);
               var before := !x.restored && own && x.state.last.value.at >= x.state.change.value.at;
               var mode := x.state.change.value.mode;
               stays == (mode != Keep && !((mode == Restore && ((x.restored && own) || before)) || (mode == Rebuild && x.world.Rebuilt(w))) &&
                         x.state.current.Some? && x.state.current != Some(w))
      ensures stays == x.Misses(w)
    {
    }

    /** Schedule, recovery, plan and change, in that order; ``wanted`` may be another version afterwards. */
    method ApplyConfigChanges(f: Fate, ghost failures: nat, ghost fellBack: bool) returns (killed: bool, ghost restored: bool)
      requires state.Wanted().Some? && (schedule.Some? ==> schedule.value.backup in backups)
      modifies this`saved, this`state, this`schedule, this`writer, this`configFor, this`plan, this`told
      ensures Reached(old(Doing(failures, fellBack, false)).ApplyConfigChanges(f), killed, failures, fellBack, restored)
    {
      hide Work.ApplyRestore, Work.SettleRecovery, Work.Missed, Work.ResetStorage, Work.CompleteChange;
      var applied;
      killed, applied := ApplyRestore(f, failures, fellBack);
      restored := applied;
      if killed { return; }
      var goesOn := SettleRecovery(applied, failures, fellBack);
      if !goesOn { return; }
      killed := ResetStorage(applied, f, failures, fellBack);
      if killed { return; }
      CompleteChange(applied, failures, fellBack);
    }

    /** Nothing is recorded: the newest release, or what is installed, or the image's own version. */
    method FirstVersion(f: Fate, o: Offer, ghost failures: nat) returns (killed: bool)
      modifies this`saved, this`state, this`venvs
      ensures Reached(old(Doing(failures, false, false)).FirstVersion(f, o), killed, failures, false, false)
    {
      var wanted := o.newest;
      if !f.installs && wanted !in venvs {
        if o.pick in venvs {
          wanted := o.pick;
        } else {
          if !o.bakes { return true; }
          wanted := o.baked;
          venvs, state := venvs + {wanted}, state.(desired := Some(wanted));
          if f.cut == Installed { return true; }
          Save();
          return f.cut == ChoiceSaved;
        }
      }
      venvs, state := venvs + {wanted}, state.(desired := Some(wanted));
      killed := f.cut == Installed;
    }

    /** The version to boot, installed, with the configuration that belongs to it in place. */
    method Prepare(f: Fate, o: Offer) returns (killed: bool, failures: nat, fellBack: bool, ghost restored: bool)
      requires Alive(Value()) && up.None?
      modifies this`saved, this`state, this`schedule, this`writer, this`configFor, this`plan, this`venvs, this`now, this`told
      ensures Reached(VersionBoot.Prepare(old(Value()), f, o), killed, failures, fellBack, restored)
    {
      hide Work.CrashFallback, Work.Install, Work.ApplyConfigChanges, Work.FirstVersion;
      ghost var m := Value();
      configFor, now, state := None, now + 1, saved.Seeded();
      failures, fellBack, restored := state.failures, false, false;
      if f.cut == Woken { return true, failures, fellBack, false; }
      WakeHolds(m, f);
      if state.Wanted().None? {
        killed := FirstVersion(f, o, failures);
        return;
      }
      CrashFallbackHolds(Doing(failures, false, false), f);
      killed, fellBack := CrashFallback(f, failures);
      if killed { return; }
      InstallHolds(Doing(failures, fellBack, false), f);
      killed := Install(f, failures, fellBack);
      if killed { return; }
      ScheduleExists(Doing(failures, fellBack, false));
      killed, restored := ApplyConfigChanges(f, failures, fellBack);
    }

    lemma ScheduleExists(x: Work)
      requires Durable(x)
      ensures x.world.schedule.Some? ==> x.world.schedule.value.backup in x.world.backups
    {
    }

    /** Record what boots. */
    method Record(wanted: Version, f: Fate, failures: nat, fellBack: bool, ghost restored: bool) returns (killed: bool)
      requires state.Wanted() == Some(wanted)
      modifies this`saved, this`state, this`told
      ensures Reached(old(Doing(failures, fellBack, restored)).Record(wanted, f), killed, failures, fellBack, restored)
    {
      hide History.Resolved;
      // a version given up, at this boot or by a switch back, must not become the target of the next fallback
      var left := fellBack || (state.fallbackFrom.Some? && state.fallbackFrom == state.current && state.current != Some(wanted));
      var previous := if left then None
                      else if state.current.Some? && state.current != Some(wanted) && failures < MAX_BOOT_FAILURES then state.current
                      else state.previous;
      told := told.Resolved(state);
      state := state.(previous := previous, current := Some(wanted), desired := if state.desired.Some? then state.desired else Some(wanted),
                      proven := if state.proven.Unrecorded? then NoneYet else state.proven);
      Save();
      killed := f.cut == BootRecorded;
    }

    /** The last write before the start, so that only boots that came this far are in the count. */
    method Count(f: Fate, ghost failures: nat, ghost fellBack: bool, ghost restored: bool) returns (killed: bool)
      modifies this`saved, this`state, this`told
      ensures Reached(old(Doing(failures, fellBack, restored)).Count(f), killed, failures, fellBack, restored)
    {
      told := told.Tried();
      state := state.(failures := state.failures + 1);
      Save();
      killed := f.cut == BootCounted;
    }

    /** A boot, up to the start of Home Assistant. */
    method Boot(f: Fate, o: Offer) returns (ghost start: Option<Start>)
      requires Alive(Value())
      modifies this
      ensures (Value(), start) == BootOf(old(Value()).Down(), f, o)
      ensures Alive(Value()) && (start.Some? ==> start.value.Rightful() && up == Some(start.value.version))
    {
      hide Alive;
      start := None;
      ghost var m := Value().Down();
      DownHolds(Value());
      up, wrote, settled := None, false, false;
      StateIsNotPart(m, f, o);
      BootHolds(m, f, o);
      PrepareHolds(m, f, o);
      var killed, failures, fellBack;
      ghost var restored;
      killed, failures, fellBack, restored := Prepare(f, o);
      if !killed { start := Launch(f, failures, fellBack, restored); }
    }

    lemma StateIsNotPart(m: Machine, f: Fate, o: Offer)
      requires Alive(m) && m.up.None?
      ensures Verdict(m.world, m.told, m.saved) == Consistent
    {
    }

    /** Start Home Assistant, unless the configuration is a newer version's. */
    method Launch(f: Fate, failures: nat, fellBack: bool, ghost restored: bool) returns (ghost start: Option<Start>)
      requires state.Wanted().Some? && up.None? && !wrote && !settled
      modifies this`saved, this`state, this`told, this`up
      ensures (Value(), start) == old(Doing(failures, fellBack, restored)).Launch(f)
    {
      start := None;
      var wanted := state.Wanted().value;
      var kept := state.change.Some? && state.change.value.to == wanted && state.change.value.mode == Keep;
      if Refuses(wanted, haVersion, state.proven, configFor, kept) { return; }
      ghost var began := Start(wanted, state, Files(), told.Resolved(state));
      hide Work.Record, Work.Count;
      var killed := Record(wanted, f, failures, fellBack, restored);
      if killed { return; }
      killed := Count(f, failures, fellBack, restored);
      if killed { return; }
      up, start := Some(wanted), Some(began);
      told := told.Begins(wanted);
    }

    // ----- while Home Assistant runs ----------------------------------------------------------

    /** The process ended, without a word. */
    method Crash()
      modifies this`up, this`wrote, this`settled
      ensures Value() == Crashed(old(Value()))
    {
      up, wrote, settled := None, false, false;
    }

    /** ... or was stopped, which takes back the count of a boot not yet marked ok. */
    method Stop()
      requires Alive(Value()) && up.Some?
      modifies this`up, this`wrote, this`settled, this`saved, this`told
      ensures Value() == StoppedOf(old(Value())) && Alive(Value())
      ensures old(saved).failures == saved.failures + (if old(settled) then 0 else 1)
    {
      StopHolds(Value());
      if !settled && saved.failures > 0 {
        told := told.(trace := told.trace + [Stopped]);
        saved := saved.(failures := saved.failures - 1);
      }
      Crash();
    }

    /** Home Assistant writes its configuration. */
    method Write()
      requires Alive(Value()) && up.Some?
      modifies this`haVersion, this`writer, this`wrote
      ensures Value() == WroteOf(old(Value())) && Alive(Value())
    {
      WriteHolds(Value());
      haVersion, writer, wrote := up, up, true;
    }

    /** The count ends; of change and recovery only what names the running version goes. */
    method MarkOk()
      requires Serving(Value())
      modifies this`saved, this`told, this`settled
      ensures Value() == MarkOkOf(old(Value())) && Serving(Value()) && settled
      // no request made meanwhile is lost
      ensures saved.desired == old(saved).desired && (old(saved).change.Some? && old(saved).change.value.to != up.value ==> saved.change == old(saved).change)
      ensures !old(settled) ==> saved.failures == 0 && saved.proven == Booted(up.value) && saved.fallbackFrom.None?
    {
      MarkOkHolds(Value());
      if settled { return; }
      var v := up.value;
      var change := if saved.change.Some? && saved.change.value.to == v then None else saved.change;
      var recovery := if saved.recovery.Some? && (saved.recovery.value.target == v || saved.recovery.value.left == v) then None else saved.recovery;
      saved := saved.(failures := 0, proven := Booted(v), fallbackFrom := None, change := change, recovery := recovery);
      told, settled := told.Settles(saved), true;
    }

    // ----- what is asked of the manager -------------------------------------------------------

    /** Drop what is scheduled for a version change. */
    method DropChangeRestore()
      modifies this`schedule
      ensures Files() == ChangeRestoreDropped(old(Files()))
    {
      if schedule.Some? && schedule.value.forVersion.Some? { schedule := None; }
    }

    /** A backup made now, of a configuration version ``made`` can read. */
    method Backup(name: string, made: Version)
      modifies this`backups, this`now
      ensures Files() == WithBackup(old(Files()), name, made)
    {
      now, backups := now + 1, backups[name := made];
    }

    /** What the change to ``to`` starts with, prepared before the change is recorded. */
    method PrepareChange(to: Version, mode: Mode, source: string, cut: Point)
      requires up.Some?
      modifies this`schedule, this`plan, this`up, this`wrote, this`settled
      ensures Value() == PreparedFor(old(Value()), to, mode, source, cut)
    {
      if mode == Restore {
        schedule := Some(Schedule(source, Some(to), true, false, None));
        if cut == RestoreScheduled { Crash(); return; }
        plan := None;
        if cut == PlanDropped { Crash(); }
      } else if mode == Rebuild {
        plan := None;
        if cut == PlanDropped { Crash(); return; }
        plan := Some(Plan(to, Reset, None));
        if cut == PlanWritten { Crash(); }
      }
    }

    /** A new choice: what an older change or a fallback left in ha.json goes with it, in one write. */
    method SetDesired(to: Version, change: Option<Change>)
      modifies this`saved, this`told
      ensures Value() == Desires(old(Value()), to, change)
      ensures saved == old(saved).(desired := Some(to), recovery := None, change := change)
    {
      told := told.Asked(None);
      saved := saved.(desired := Some(to), recovery := None, change := change);
    }

    /** Why a change to ``to`` is not taken. */
    method Refuse(to: Version, mode: Mode, source: string) returns (refused: bool)
      requires up.Some? && saved.Wanted().Some?
      ensures refused == Refused(Value(), to, mode, source)
    {
      var v := up.value;
      if to == v || (mode == Rebuild && to > v) || (mode == Restore && (source !in backups || backups[source] > to)) { return true; }
      if saved.Recovers(saved.Wanted().value) { return true; }
      if schedule.None? || !schedule.value.ByHand() { return false; }
      refused := mode != Keep || (schedule.value.storage && (schedule.value.backup !in backups || backups[schedule.value.backup] > to));
    }

    /** Another version is asked for: a backup, what the version starts with, the record, and then what an older
        change left. ``source``: the backup a restore comes from. */
    method ChangeVersion(to: Version, mode: Mode, source: string, backup: string, cut: Point)
      requires Serving(Value()) && saved.Wanted().Some?
      modifies this`saved, this`schedule, this`plan, this`backups, this`now, this`told, this`up, this`wrote, this`settled
      ensures Value() == ChangeVersionOf(old(Value()), to, mode, source, backup, cut) && Alive(Value())
      // asked for as a whole, with a backup of what runs, or not at all
      ensures saved == old(saved) ||
                (saved.desired == Some(to) && saved.recovery.None? && saved.change.Some? && saved.change.value.backup == backup &&
                 backup !in old(backups) && backup in backups && backups[backup] == old(up).value)
    {
      hide Alive, PreparedFor, Refused, ChangeRecorded;
      ChangeVersionHolds(Value(), to, mode, source, backup, cut);
      var refused := Refuse(to, mode, source);
      if refused || backup in backups { return; }
      Backup(backup, up.value);
      if cut == BackedUp { Crash(); return; }
      PrepareChange(to, mode, source, cut);
      if up.None? { return; }
      RecordChange(to, mode, backup, cut);
    }

    method RecordChange(to: Version, mode: Mode, backup: string, cut: Point)
      requires up.Some?
      modifies this`saved, this`schedule, this`plan, this`told, this`up, this`wrote, this`settled
      ensures Value() == ChangeRecorded(old(Value()), to, mode, backup, cut)
      ensures saved == old(saved).(desired := Some(to), recovery := None, change := Some(Change(to, mode, backup, false, now, old(up).value)))
    {
      hide Desires, LeftoversDropped;
      SetDesired(to, Some(Change(to, mode, backup, false, now, up.value)));
      if cut == DesiredSet { Crash(); return; }
      DropOlderChange(mode, cut);
    }

    /** A cut before this leaves a schedule or a plan that the next boot judges for itself. */
    method DropOlderChange(mode: Mode, cut: Point)
      modifies this`schedule, this`plan, this`up, this`wrote, this`settled
      ensures Value() == LeftoversDropped(old(Value()), mode, cut)
    {
      if mode == Restore { return; }
      DropChangeRestore();
      if cut == OldRestoreDropped { Crash(); return; }
      if mode == Keep { plan := None; }
    }

    /** The running version is asked for: the change goes, and what it prepared. */
    method CancelChange(cut: Point)
      requires Serving(Value())
      modifies this
      ensures Value() == CancelChangeOf(old(Value()), cut) && Alive(Value())
      // not cut, the running version boots next, with what it has or a restore by hand
      ensures up.Some? ==> saved.Wanted() == up && saved.change.None? && saved.recovery.None? && plan.None? && (schedule.Some? ==> schedule.value.ByHand())
      ensures schedule == old(schedule) || old(schedule.Some? && !schedule.value.ByHand())
      ensures cut != OldRestoreDropped && cut != PlanDropped ==> up == old(up)
    {
      hide Alive;
      CancelChangeHolds(Value(), cut);
      DropChangeRestore();
      if cut == OldRestoreDropped { Crash(); return; }
      plan := None;
      if cut == PlanDropped { Crash(); return; }
      SetDesired(up.value, None);
    }

    /** A restore by hand, for whatever boots next; refused while a change waits for its own. */
    method RestoreByHand(backup: string, storage: bool, cut: Point)
      requires Serving(Value()) && saved.Wanted().Some?
      modifies this
      ensures Value() == RestoreByHandOf(old(Value()), backup, storage, cut) && Alive(Value())
      ensures saved == old(saved) && (schedule == old(schedule) ==> plan == old(plan) || up.Some?)
      ensures schedule != old(schedule) ==> schedule.Some? && schedule.value.ByHand() && schedule.value.backup == backup && backup in backups
    {
      hide Alive;
      RestoreByHandHolds(Value(), backup, storage, cut);
      if backup !in backups || (storage && backups[backup] > saved.Wanted().value) { return; }
      if saved.change.Some? && saved.change.value.mode != Keep && saved.change.value.to != up.value { return; }
      schedule := Some(Schedule(backup, None, storage, false, None));
      if cut == RestoreScheduled { Crash(); return; }
      plan := None;
    }

    /** What ha.json waits for stays; everything else that is scheduled goes. */
    method CancelRestore()
      requires Serving(Value())
      modifies this`schedule
      ensures Value() == CancelRestoreOf(old(Value())) && Alive(Value())
      // one that is still there goes with the change, or the switch back, that ha.json records
      ensures schedule.Some? ==> schedule == old(schedule) && schedule.value.forVersion.Some? && schedule.value.forVersion == ChangingTo(saved)
      ensures old(schedule.Some?) && schedule.None? ==> old(schedule).value.forVersion.None? || old(schedule).value.forVersion != ChangingTo(saved)
    {
      hide Alive;
      CancelRestoreHolds(Value());
      var change, recovery := saved.change, saved.recovery;
      var to := if change.Some? then Some(change.value.to)
                else if saved.desired.Some? && saved.desired != saved.current && recovery.Some? && Some(recovery.value.target) == saved.desired then saved.desired
                else None;
      if schedule.Some? && schedule.value.forVersion.Some? && schedule.value.forVersion == to { return; }
      schedule := None;
    }

    /** The first boot after a change that kept the configuration has something to judge, and no other: what is left of
        another version's judgement goes instead. */
    method StartSmoke()
      requires Serving(Value())
      modifies this`saved
      ensures Value() == SmokeStarted(old(Value())) && Alive(Value())
      ensures saved.smoke.Some? ==> saved.smoke == old(saved).smoke || saved.smoke == Some(Smoke(up.value, old(saved).change.value.from))
      ensures saved.smoke.Some? ==> Some(saved.smoke.value.version) == up
    {
      SmokeHolds(Value(), SmokeStarted(Value()).saved.smoke);
      if saved.smoke.Some? {
        if saved.smoke.value.version != up.value { saved := saved.(smoke := None); }
      } else if saved.change.Some? && saved.change.value.to == up.value && saved.change.value.mode == Keep {
        saved := saved.(smoke := Some(Smoke(up.value, saved.change.value.from)));
      }
    }

    /** Give up the running version for the one it was judged against: backup ``merged``, its schedule, then ha.json, so that
        a cut leaves at most a schedule that fits no version that boots. */
    method SwitchBack(merged: string, cut: Point)
      requires Serving(Value()) && saved.Wanted().Some? && settled
      modifies this`saved, this`schedule, this`backups, this`now, this`told, this`up, this`wrote, this`settled
      ensures Value() == SwitchBackOf(old(Value()), merged, cut) && Alive(Value())
      // the switch with its restore, or neither; only to the version that was judged against
      ensures saved == old(saved) ||
                (old(Back(Value())).Some? && saved.desired == old(Back(Value())) && saved.recovery.Some? && saved.recovery.value.left == old(up).value &&
                 schedule == Some(Own(merged, saved.desired.value)) && merged in backups && merged !in old(backups))
    {
      hide Alive;
      hide SwitchToOf;
      SwitchBackHolds(Value(), merged, cut);
      if saved.smoke.None? || saved.smoke.value.version != up.value { return; }
      SwitchTo(saved.smoke.value.back, merged, cut);
    }

    method SwitchTo(back: Version, merged: string, cut: Point)
      requires up.Some? && saved.Wanted().Some?
      modifies this`saved, this`schedule, this`backups, this`now, this`told, this`up, this`wrote, this`settled
      ensures Value() == SwitchToOf(old(Value()), back, merged, cut)
      ensures saved == old(saved) ||
                (saved.desired == Some(back) && saved.recovery.Some? && saved.recovery.value.left == old(up).value &&
                 schedule == Some(Own(merged, back)) && merged in backups && merged !in old(backups))
    {
      hide SwitchRecorded, HaState.Recovers;
      var v := up.value;
      if back == v || back !in venvs || merged in backups || schedule.Some? || saved.Wanted() != Some(v) || saved.Recovers(v) { return; }
      Backup(merged, back);
      if cut == BackedUp { Crash(); return; }
      schedule := Some(Schedule(merged, Some(back), true, false, None));
      if cut == RestoreScheduled { Crash(); return; }
      RecordSwitch(back, merged);
    }

    method RecordSwitch(back: Version, merged: string)
      requires up.Some?
      modifies this`saved, this`told
      ensures Value() == SwitchRecorded(old(Value()), back, merged)
      ensures saved.desired == Some(back) && saved.recovery.Some? && saved.recovery.value.left == up.value
    {
      var v := up.value;
      saved := saved.(desired := Some(back), fallbackFrom := Some(v), recovery := Some(Recovery(merged, v, back, now)), change := None, smoke := None);
      told := told.Asked(saved.recovery);
    }

    // ----- a life -----------------------------------------------------------------------------

    /** Every run, from any consistent volume: boots cut after any step, crashes, stops, version changes, restores and
        fallbacks. Every start is rightful, and the crash counter is the number of boots since the last good one or
        decision that ended neither well nor by a stop. */
    method Lifetime(events: seq<Event>) returns (ghost starts: seq<Start>)
      requires Alive(Value())
      modifies this
      ensures Value() == RunOf(old(Value()), events) && Alive(Value())
      ensures forall i :: 0 <= i < |starts| ==> starts[i].Rightful()
      ensures saved.failures == Failed(told.trace)
    {
      hide Alive, StepOf;
      starts := [];
      ghost var m := Value();
      for i := 0 to |events|
        invariant Value() == RunOf(m, events[..i]) && Alive(Value())
        invariant forall k :: 0 <= k < |starts| ==> starts[k].Rightful()
      {
        assert events[..i + 1][..i] == events[..i];
        ghost var start := Step(events[i]);
        if start.Some? { starts := starts + [start.value]; }
      }
      assert events[..|events|] == events;
      RunHolds(m, events);
    }

    method Step(e: Event) returns (ghost start: Option<Start>)
      requires Alive(Value())
      modifies this
      ensures (Value(), start) == StepOf(old(Value()), e) && Alive(Value()) && (start.Some? ==> start.value.Rightful())
    {
      hide Alive;
      StepHolds(Value(), e);
      start := None;
      match e
      case Boot(f, o) => start := Boot(f, o);
      case Crash => Crash();
      case Stop => if up.Some? { Stop(); }
      case Write => if up.Some? { Write(); }
      case Asked(q, cut) =>
        if up.Some? && wrote {
          ServingWants(Value());
          Serve(q, cut);
        }
    }

    /** What runs only once Home Assistant has written its configuration. */
    method Serve(q: Request, cut: Point)
      requires Serving(Value()) && saved.Wanted().Some?
      modifies this
      ensures Value() == ServedOf(old(Value()), q, cut) && Alive(Value())
    {
      hide Alive;
      match q
      case MarkOk => MarkOk();
      case ChangeVersion(to, mode, source, backup) => ChangeVersion(to, mode, source, backup, cut);
      case CancelChange => CancelChange(cut);
      case RestoreByHand(backup, storage) => RestoreByHand(backup, storage, cut);
      case CancelRestore => CancelRestore();
      case StartSmoke => StartSmoke();
      case DropSmoke =>
        SmokeHolds(Value(), None);
        saved := saved.(smoke := None);
      case SwitchBack(merged) => if settled { SwitchBack(merged, cut); }
      case RebuildDone =>
        NoPlan(Value());
        plan := None;
    }
  }
}
