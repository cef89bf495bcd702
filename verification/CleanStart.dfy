/** A clean start for an older version: staged while Home Assistant runs, carried out at the boot, finished once the
    integration is rebuilt. Each rename, removal and plan write is one step, and the process may end between any two. */
module CleanStart {
  datatype Option<+T> = None | Some(value: T)

  /** .storage or a copy of it: not there, empty, some configuration, or what a removal left of one. */
  datatype Dir = Gone | Empty | Holds(config: nat) | Part

  /** What an extraction was made for: one version change's clean start, or an upload. */
  datatype Source = Rebuild(change: nat) | Upload

  datatype Stage = Reset | Renaming | Import

  /** ``aside``: the name .storage is renamed to. ``bootBackup``: what .storage was when the boot backed it up. */
  datatype Plan = Plan(change: nat, to: nat, stage: Stage, aside: Option<string>, bootBackup: Option<Dir>)

  datatype Outcome = Done | Failed | Killed

  /** What a rename, a removal or a write is for. */
  datatype Step = MoveOld | RemoveOldPlan | MoveNew | WritePlan | BackNew | BackOld | BackPlan
                | RemovePlan | RemoveExtraction
                | BackUpStorage | NoteBackup | RecordName | Rename | MakeEmpty | ReturnCopy | WriteReset | WriteImport
                | RemoveCopy(name: string)

  /** How each step of one call goes. */
  type Fate = Step -> Outcome

  /** .storage is renamed and can neither be made anew nor put back, though the plan can be rewritten. */
  predicate CannotGoBack(f: Fate) {
    f(Rename) == Done && f(MakeEmpty) == Failed && f(ReturnCopy) == Failed && f(WriteReset) == Done
  }

  predicate ComesBack(f: Fate) {
    f(ReturnCopy) == Done && f(WriteReset) == Done
  }

  ghost predicate NoneCut(names: set<string>, f: Fate) {
    forall n :: n in names ==> f(RemoveCopy(n)) != Killed
  }

  predicate IsRebuild(e: Option<Source>) {
    e.Some? && e.value.Rebuild?
  }

  ghost predicate Smooth(f: Fate) {
    forall s :: f(s) == Done
  }

  ghost predicate CopyOf(asides: map<string, Dir>, config: nat) {
    exists n :: n in asides && asides[n] == Holds(config)
  }

  class Volume {
    var storage: Dir
    var asides: map<string, Dir>       // .storage.pre-rebuild-*
    var plan: Option<Plan>
    var extraction: Option<Source>
    var staging: Option<Source>        // a new extraction, not yet in place
    var replaced: Option<Source>       // the old one, moved out of the way
    var backups: set<Dir>              // what the boot backups hold
    ghost var before: nat              // the configuration a clean start must not lose
    ghost var stranded: bool           // .storage could not be put back, and the plan no longer names its copy

    /** No plan points at another change's extraction. */
    ghost predicate Paired()
      reads this
    {
      plan.Some? && extraction.Some? && extraction.value.Rebuild? ==> extraction.value.change == plan.value.change
    }

    /** The boot backup a plan names exists. None is of an emptied .storage, nor will be. */
    ghost predicate Backed(p: Plan)
      reads this`storage, this`backups
    {
      if p.bootBackup.Some? then p.bootBackup.value.Holds? && p.bootBackup.value in backups else p.stage == Reset && storage.Holds?
    }

    ghost predicate InAside(name: Option<string>, config: nat)
      reads this`asides
    {
      name.Some? && name.value in asides && asides[name.value] == Holds(config)
    }

    /** The configuration is in place, or in the copy the plan names; without a plan, in some copy. */
    ghost predicate Kept()
      reads this
    {
      if plan.None? then storage == Holds(before) || CopyOf(asides, before) else KeptFor(plan.value, before)
    }

    ghost predicate KeptFor(p: Plan, config: nat)
      reads this`storage, this`asides
    {
      match p.stage
      case Reset => storage == Holds(config)
      case Renaming => storage == Holds(config) || InAside(p.aside, config)
      case Import => storage == Holds(config) || InAside(p.aside, config)
    }

    /** Renamed, and not put back. */
    predicate Switched()
      reads this
    {
      plan.Some? && plan.value.stage == Renaming && plan.value.aside.Some? && plan.value.aside.value in asides
    }

    ghost predicate Valid()
      reads this
    {
      Paired() && (plan.Some? ==> Backed(plan.value)) && (stranded || Kept())
    }

    constructor (config: nat)
      ensures Valid() && !stranded && storage == Holds(config) && before == config
      ensures plan.None? && extraction.None? && asides == map[] && backups == {}
    {
      storage, asides, plan, extraction, staging, replaced := Holds(config), map[], None, None, None, None;
      backups, before, stranded := {}, config, false;
    }

    // ----- staging ----------------------------------------------------------------------------

    /** Four renames and writes, ordered so that no plan ever meets an extraction of another change. After a failure both
        are what they were, unless an old plan had no extraction; after success ``before`` is what is in place. */
    method PublishStage(change: nat, to: nat, f: Fate) returns (r: Outcome)
      requires Valid() && storage.Holds? && staging == Some(Rebuild(change))
      modifies this
      ensures Valid() && storage == old(storage) && asides == old(asides) && backups == old(backups) && (stranded ==> old(stranded))
      ensures r == Done ==> plan == Some(Plan(change, to, Reset, None, None)) && extraction == Some(Rebuild(change))
      ensures r == Done ==> storage == Holds(before) && !stranded
      ensures r == Failed && GoesBack(f) && (old(extraction).Some? || old(plan).None?) ==> AsBefore()
      ensures Smooth(f) ==> r == Done
    {
      hide CopyOf;
      var was, moved := plan, extraction.Some?;
      ghost var lost, adrift := before, stranded;
      if moved {
        r := f(MoveOld);
        if r != Done { return; }
        replaced, extraction := extraction, None;
      }
      r := SwapIn(change, to, f);
      if r == Failed { r := BackOut(was, moved, lost, adrift, f); }
    }

    method SwapIn(change: nat, to: nat, f: Fate) returns (r: Outcome)
      requires Valid() && storage.Holds? && staging == Some(Rebuild(change)) && extraction.None?
      modifies this`plan, this`extraction, this`staging, this`before, this`stranded
      ensures Valid() && (plan == old(plan) || storage == Holds(before)) && (stranded ==> old(stranded))
      ensures r == Done ==> plan == Some(Plan(change, to, Reset, None, None)) && extraction == Some(Rebuild(change)) && !stranded
      ensures r == Done ==> storage == Holds(before)
      ensures r != Done ==> plan.None? || (plan == old(plan) && before == old(before) && stranded == old(stranded) && extraction.None?)
      ensures r != Done && extraction.Some? ==> staging.None?
      ensures Smooth(f) ==> r == Done
    {
      hide CopyOf;
      r := f(RemoveOldPlan);
      if r != Done { return; }
      plan, before, stranded := None, storage.config, false;
      r := f(MoveNew);
      if r != Done { return; }
      extraction, staging := staging, None;
      r := f(WritePlan);
      if r == Done { plan := Some(Plan(change, to, Reset, None, None)); }
    }

    /** Both plans, the extraction and the configuration are what they were. */
    twostate predicate AsBefore()
      reads this
    {
      plan == old(plan) && extraction == old(extraction) && (plan.Some? ==> before == old(before) && stranded == old(stranded))
    }

    predicate GoesBack(f: Fate) {
      f(BackNew) == Done && f(BackOld) == Done && f(BackPlan) == Done
    }

    /** The staging failed: the new extraction and the old one go back, and the old plan with it. */
    method BackOut(was: Option<Plan>, moved: bool, ghost lost: nat, ghost adrift: bool, f: Fate) returns (r: Outcome)
      requires Valid() && storage.Holds? && (plan.None? || plan == was)
      requires plan == was && was.Some? ==> lost == before && adrift == stranded
      requires extraction.Some? ==> plan.None? || !moved
      requires moved ==> replaced.Some?
      requires was.Some? && moved && replaced.value.Rebuild? ==> replaced.value.change == was.value.change
      requires was.Some? ==> Backed(was.value) && (adrift || KeptFor(was.value, lost))
      modifies this`plan, this`extraction, this`staging, this`replaced, this`before, this`stranded
      ensures Valid() && r != Done && (stranded ==> old(stranded) || adrift)
      ensures r == Failed && GoesBack(f) && (moved || was.None?) && (old(extraction).Some? ==> old(staging).None?) ==>
                && plan == was && extraction == (if moved then old(replaced) else None)
                && (was.Some? ==> before == lost && stranded == adrift)
    {
      hide CopyOf, KeptFor, Backed;
      if extraction.Some? && staging.None? {
        r := f(BackNew);
        if r == Killed { return; }
        if r == Done { staging, extraction := extraction, None; }
      }
      if moved && extraction.None? {
        r := f(BackOld);
        if r == Killed { return; }
        if r == Done { extraction, replaced := replaced, None; }
        if was.Some? && plan.None? {
          r := f(BackPlan);
          if r == Killed { return; }
          if r == Done { plan, before, stranded := was, lost, adrift; }
        }
      }
      r := Failed;
    }

    /** Nothing is left to do or to undo: from the plan's removal on, or else from the first copy's, what is in place counts. */
    method DropRebuild(f: Fate) returns (r: Outcome)
      requires Valid() && storage.Holds?
      modifies this
      ensures Valid() && storage == old(storage) && backups == old(backups) && (stranded ==> old(stranded))
      ensures r == Done ==> storage == Holds(before) && !stranded && forall n :: n in asides ==> asides[n] == Part && f(RemoveCopy(n)) == Failed
      // what goes, once it is not cut
      ensures r == Done ==> plan == if f(RemovePlan) == Done then None else old(plan)
      ensures r == Done ==> extraction == if IsRebuild(old(extraction)) && f(RemoveExtraction) == Done then None else old(extraction)
      ensures r == Done <==> f(RemovePlan) != Killed && (IsRebuild(old(extraction)) ==> f(RemoveExtraction) != Killed) && NoneCut(old(asides).Keys, f)
      ensures Smooth(f) ==> r == Done && plan.None? && asides == map[] && !IsRebuild(extraction)
    {
      r := f(RemovePlan);
      if r == Killed { return; }
      if r == Done { plan, before, stranded := None, storage.config, false; }
      if extraction.Some? && extraction.value.Rebuild? {
        r := f(RemoveExtraction);
        if r == Killed { return; }
        if r == Done { extraction := None; }
      }
      before, stranded := storage.config, false;
      r := SweepCopies(None, f);
    }

    /** Every copy but ``keep`` goes. A removal that fails is passed over, and leaves what it has not removed. */
    method SweepCopies(keep: Option<string>, f: Fate) returns (r: Outcome)
      modifies this`asides
      ensures r == Done <==> NoneCut((set n | n in old(asides) && keep != Some(n)), f)
      ensures r != Failed && forall n :: n in asides ==> n in old(asides)
      ensures forall n :: n in old(asides) && keep == Some(n) ==> n in asides && asides[n] == old(asides)[n]
      ensures forall n :: n in asides && keep != Some(n) && r == Done ==> asides[n] == Part && f(RemoveCopy(n)) == Failed
      ensures Smooth(f) ==> r == Done
    {
      var rest := set n | n in asides && keep != Some(n);
      while rest != {}
        invariant forall n :: n in old(asides) && keep != Some(n) && n !in rest ==> f(RemoveCopy(n)) != Killed
        invariant rest <= (set n | n in old(asides) && keep != Some(n))
        invariant forall n :: n in asides ==> n in old(asides)
        invariant forall n :: n in rest ==> n in asides && keep != Some(n)
        invariant forall n :: n in old(asides) && keep == Some(n) ==> n in asides && asides[n] == old(asides)[n]
        invariant forall n :: n in asides && keep != Some(n) && n !in rest ==> asides[n] == Part && f(RemoveCopy(n)) == Failed
      {
        var n :| n in rest;
        asides := if f(RemoveCopy(n)) == Done then asides - {n} else asides[n := Part];
        if f(RemoveCopy(n)) == Killed { return Killed; }
        rest := rest - {n};
      }
      r := Done;
    }

    // ----- the boot ---------------------------------------------------------------------------

    /** The plan's part of a boot of ``wanted``. ``stamp`` names the copy it may make; ``restored`` and ``storageRestored`` say
        what a restore did at the same boot. */
    method ResetStorage(wanted: nat, restored: bool, storageRestored: bool, restoreFailed: bool, backupUsable: bool, stamp: string, f: Fate)
      returns (r: Outcome, reset: bool)
      requires Valid() && stamp !in asides
      requires storageRestored ==> restored && storage.Holds? && !Switched()
      modifies this
      ensures Valid() && old(backups) <= backups
      ensures reset ==> r == Done && plan.Some? && old(plan).Some? && plan.value.to == wanted && plan.value.stage == Import
      ensures reset && !old(Switched()) ==> storage == Empty && plan.value.aside == Some(stamp)
      ensures reset ==> plan.value.aside.Some? && OnlyCopy(plan.value.aside.value, f)
      // the copy that is left holds the configuration, unless it had lost its name or what runs is in place
      ensures reset ==> stranded == old(stranded) && before == old(before) && (!stranded ==> InAside(plan.value.aside, before) || storage == Holds(before))
      ensures reset && !old(Switched()) ==> (stamp in asides <==> old(storage) != Gone) && (stamp in asides ==> asides[stamp] == old(storage))
      // no .storage is emptied without a backup; it holds what was in place when it was first to be emptied
      ensures reset ==> plan.value.bootBackup.Some? && plan.value.bootBackup.value in backups
      ensures reset && !old(Switched()) ==> plan.value.bootBackup == old(BootBackup())
      // when the configuration loses its name
      ensures !old(stranded) ==> (stranded <==> old(GoesAhead(wanted, restored, backupUsable)) && old(LosesName(f)))
      ensures stranded && !old(stranded) ==>
                Adrift(stamp) && old(storage) == Holds(before) && asides == old(asides)[stamp := old(storage)] && plan.value.bootBackup == old(BootBackup())
      ensures old(GoesAhead(wanted, restored, backupUsable)) && Smooth(f) ==> reset
      ensures reset ==> old(GoesAhead(wanted, restored, backupUsable) || Finishes(wanted, restored, backupUsable))
      ensures old(Finishes(wanted, restored, backupUsable)) && Smooth(f) ==> reset
      // a failed one is undone, to be tried again
      ensures old(GoesAhead(wanted, restored, backupUsable)) && r == Done && !reset && ComesBack(f) ==>
                storage == old(storage) && asides == old(asides) && GoesAhead(wanted, restored, backupUsable)
      // a plan that does not go ahead goes
      ensures old(Dropped(wanted, restored, restoreFailed, backupUsable)) && r == Done ==> plan == if f(RemovePlan) == Done then None else old(plan)
      ensures old(Dropped(wanted, restored, restoreFailed, backupUsable)) && Smooth(f) ==> r == Done && plan.None?
      ensures !old(Dropped(wanted, restored, restoreFailed, backupUsable)) ==> plan.Some? <==> old(plan).Some?
      ensures plan.Some? ==> old(plan).Some? && plan.value.change == old(plan).value.change && plan.value.to == old(plan).value.to
      ensures extraction == old(extraction)
      // with nothing to do nothing is done
      ensures !old(Dropped(wanted, restored, restoreFailed, backupUsable) || GoesAhead(wanted, restored, backupUsable) || Finishes(wanted, restored, backupUsable)) ==>
                unchanged(this) && r == Done
    {
      r, reset := Done, false;
      if plan.None? { return; }
      var p := plan.value;
      var source := extraction.Some? && extraction.value.Rebuild?;
      if restored || (restoreFailed && wanted != p.to) || (p.stage != Import && (wanted != p.to || !source || !backupUsable)) {
        r := DropPlan(storageRestored, f);
        return;
      }
      if p.stage == Import { return; }
      if Switched() {
        if storage == Gone {
          r := f(MakeEmpty);
          if r != Done { return Killed, false; }
          storage := Empty;
        }
      } else {
        r := SetAside(stamp, f);
        if r == Killed { return; }
        if r == Failed { return Done, false; }
      }
      r := Finish(f);
      reset := r == Done;
    }

    /** The boot is to set .storage aside. */
    predicate GoesAhead(wanted: nat, restored: bool, backupUsable: bool)
      reads this
    {
      && plan.Some? && plan.value.to == wanted && plan.value.stage != Import && extraction.Some? && extraction.value.Rebuild?
      && !restored && backupUsable && !Switched()
    }

    /** ... or to go on where a cut one stopped. */
    predicate Finishes(wanted: nat, restored: bool, backupUsable: bool)
      reads this
    {
      && plan.Some? && plan.value.to == wanted && plan.value.stage != Import && extraction.Some? && extraction.value.Rebuild?
      && !restored && backupUsable && Switched()
    }

    /** A restore makes a plan moot; so does a boot of another version, or a source that is not there, before .storage is
        emptied. */
    predicate Dropped(wanted: nat, restored: bool, restoreFailed: bool, backupUsable: bool)
      reads this
    {
      plan.Some? &&
        (restored || (restoreFailed && wanted != plan.value.to) ||
         (plan.value.stage != Import && (wanted != plan.value.to || !IsRebuild(extraction) || !backupUsable)))
    }

    /** The copy of .storage is there, .storage is not, and the plan names no copy of this attempt. */
    predicate Adrift(stamp: string)
      reads this
    {
      stamp in asides && storage == Gone && plan.Some? && plan.value.stage == Reset
    }

    /** The boot that sets .storage aside leaves its copy without a name. */
    ghost predicate LosesName(f: Fate)
      requires plan.Some?
      reads this
    {
      && storage != Gone && (plan.value.bootBackup.Some? || (f(BackUpStorage) == Done && f(NoteBackup) == Done))
      && f(RecordName) == Done && CannotGoBack(f)
    }

    /** The boot backup that is kept, or the one made of what is in place. */
    function BootBackup(): Option<Dir>
      requires plan.Some?
      reads this
    {
      if plan.value.bootBackup.Some? then plan.value.bootBackup else Some(storage)
    }

    /** The plan ends without emptying anything. Its copy becomes .storage again where there is none, and is removed only if
        ``before`` has moved on to what a restore put in place. */
    method DropPlan(storageRestored: bool, f: Fate) returns (r: Outcome)
      requires Valid() && plan.Some? && (storageRestored ==> storage.Holds? && !Switched())
      modifies this`plan, this`storage, this`asides, this`before, this`stranded
      ensures Valid() && (plan.Some? ==> plan == old(plan))
      ensures r == Done ==> plan == if f(RemovePlan) == Done then None else old(plan)
      ensures r == Done && old(Switched()) ==> if f(ReturnCopy) == Done && !old(storage).Holds?
                then storage == old(asides)[old(plan).value.aside.value] && asides == old(asides) - {old(plan).value.aside.value}
                else storage == old(storage) && asides == old(asides)
      ensures Smooth(f) ==> r == Done
      ensures stranded == (old(stranded) && !storageRestored)
      ensures r != Failed
    {
      var aside := plan.value.aside;
      if Switched() {
        r := f(ReturnCopy);
        if r == Killed { return; }
        if r == Done && !storage.Holds? { storage, asides := asides[aside.value], asides - {aside.value}; }
      }
      if storageRestored { before, stranded := storage.config, false; }
      r := f(RemovePlan);
      if r == Killed { return; }
      if r == Done { plan := None; }
      r := Done;
      if storageRestored && aside.Some? && aside.value in asides {
        r := f(RemoveCopy(aside.value));
        asides := if r == Done then asides - {aside.value} else asides[aside.value := Part];
        if r == Failed { r := Done; }
      }
    }

    /** Back .storage up, once, and rename it in one step, its new name recorded first. */
    method SetAside(stamp: string, f: Fate) returns (r: Outcome)
      requires Valid() && plan.Some? && plan.value.stage != Import && !Switched() && stamp !in asides
      modifies this`plan, this`asides, this`storage, this`backups, this`stranded
      ensures Valid() && plan.Some? && old(backups) <= backups
      ensures plan.value.change == old(plan).value.change && plan.value.to == old(plan).value.to
      ensures r == Done ==> storage == Empty && plan.value.stage == Renaming && plan.value.aside == Some(stamp) && stranded == old(stranded)
      ensures r == Done ==> asides == if old(storage) == Gone then old(asides) else old(asides)[stamp := old(storage)]
      ensures r == Done && !stranded ==> Switched()
      ensures r == Done ==> plan.value.bootBackup == old(BootBackup())
      ensures stranded <==> old(stranded) || Adrift(stamp)
      ensures Adrift(stamp) <==> old(LosesName(f))
      ensures Adrift(stamp) ==> asides == old(asides)[stamp := old(storage)] && plan.value.bootBackup == old(BootBackup())
      ensures Smooth(f) ==> r == Done
      ensures r == Failed && ComesBack(f) ==> storage == old(storage) && asides == old(asides) && !Switched() && plan.value.stage != Import
    {
      r := BackUp(f);
      if r != Done { return; }
      var p := plan.value;
      r := f(RecordName);
      if r != Done { return; }
      plan := Some(p.(stage := Renaming, aside := Some(stamp)));
      if storage != Gone {
        r := f(Rename);
        if r == Done { asides, storage := asides[stamp := storage], Gone; }
      }
      if r == Done {
        r := f(MakeEmpty);
        if r == Done { storage := Empty; }
      }
      if r == Failed { r := Undo(p, stamp, f); }
    }

    /** Anything configured since the switch was scheduled exists only on the volume. A retry keeps the first backup. */
    method BackUp(f: Fate) returns (r: Outcome)
      requires Valid() && plan.Some? && plan.value.stage != Import && !Switched()
      modifies this`plan, this`backups
      ensures Valid() && !Switched() && plan.Some? && plan.value == old(plan).value.(bootBackup := plan.value.bootBackup) && old(backups) <= backups
      ensures r == Done ==> plan.value.bootBackup == old(BootBackup())
      ensures r == Done <==> old(plan).value.bootBackup.Some? || (f(BackUpStorage) == Done && f(NoteBackup) == Done)
    {
      r := Done;
      if plan.value.bootBackup.None? {
        r := f(BackUpStorage);
        if r != Done { return; }
        backups := backups + {storage};
        r := f(NoteBackup);
        if r == Done { plan := Some(plan.value.(bootBackup := Some(storage))); }
      }
    }

    /** After a failed rename or creation: copy and plan return to where they were. The one bad combination is a copy that
        stays under a plan that is rewritten, which is when ``stranded`` begins. */
    method Undo(p: Plan, stamp: string, f: Fate) returns (r: Outcome)
      requires Valid() && plan == Some(p.(stage := Renaming, aside := Some(stamp))) && p.stage != Import && p.bootBackup.Some?
      requires stamp in asides ==> storage == Gone
      requires p.aside.Some? && p.stage == Renaming ==> p.aside.value !in asides || p.aside == Some(stamp)
      modifies this`plan, this`asides, this`storage, this`stranded
      ensures Valid() && r != Done && plan.Some? && plan.value.bootBackup == p.bootBackup
      ensures plan.value.change == old(plan).value.change && plan.value.to == old(plan).value.to
      ensures stranded <==> old(stranded) || Adrift(stamp)
      ensures Adrift(stamp) <==> stamp in old(asides) && f(ReturnCopy) == Failed && f(WriteReset) == Done
      ensures Adrift(stamp) ==> asides == old(asides)
      ensures ComesBack(f) ==> r == Failed && plan == Some(p.(stage := Reset)) && asides == old(asides) - {stamp}
      ensures ComesBack(f) ==> storage == if stamp in old(asides) then old(asides)[stamp] else old(storage)
    {
      if stamp in asides {
        r := f(ReturnCopy);
        if r == Killed { return; }
        if r == Done { storage, asides := asides[stamp], asides - {stamp}; }
      }
      r := f(WriteReset);
      if r == Killed { return; }
      if r == Done {
        stranded := stranded || stamp in asides;
        plan := Some(p.(stage := Reset));
      }
      r := Failed;
    }

    /** Say that .storage is emptied, then drop the copies of earlier clean starts. */
    method Finish(f: Fate) returns (r: Outcome)
      requires Valid() && plan.Some? && plan.value.stage == Renaming && plan.value.aside.Some?
      requires stranded || Switched()
      modifies this`plan, this`asides
      ensures Valid() && r != Failed && plan.Some?
      ensures r == Done ==> plan == Some(old(plan).value.(stage := Import))
      ensures plan.value.(stage := Import) == old(plan).value.(stage := Import)
      ensures r == Done ==>
                var name := plan.value.aside.value; OnlyCopy(name, f) && (name in asides <==> name in old(asides)) && (name in asides ==> asides[name] == old(asides)[name])
      ensures Smooth(f) ==> r == Done
    {
      r := f(WriteImport);
      if r != Done { return Killed; }
      plan := Some(plan.value.(stage := Import));
      r := SweepCopies(plan.value.aside, f);
    }

    /** Of the other copies no more is left than a removal that failed left. */
    predicate OnlyCopy(name: string, f: Fate)
      reads this`asides
    {
      forall n :: n in asides && n != name ==> asides[n] == Part && f(RemoveCopy(n)) == Failed
    }

    // ----- what else happens ------------------------------------------------------------------

    /** Home Assistant runs and writes. Without a clean start under way that is the configuration from then on. */
    method HomeAssistantRuns(config: nat)
      requires Valid()
      modifies this`storage, this`before, this`stranded
      ensures Valid() && storage == Holds(config) && (stranded ==> old(stranded))
      ensures old(plan.Some? && (Switched() || plan.value.stage == Import) && !stranded && InAside(plan.value.aside, before)) ==>
                before == old(before) && !stranded
    {
      storage := Holds(config);
      if !(plan.Some? && (Switched() || plan.value.stage == Import) && !stranded && InAside(plan.value.aside, before)) {
        before := config;
        if !Switched() { stranded := false; }
      }
    }

    /** A restore replaces .storage at a boot; none is scheduled while a clean start is half way. */
    method RestoreStorage(config: nat)
      requires Valid() && !Switched()
      modifies this`storage, this`before, this`stranded
      ensures Valid() && storage == Holds(config) && (stranded ==> old(stranded))
    {
      HomeAssistantRuns(config);
    }

    /** Another extraction takes the place of the one there is. */
    method UploadBackup()
      requires Valid()
      modifies this`extraction
      ensures Valid() && extraction == Some(Source.Upload)
    {
      extraction := Some(Source.Upload);
    }

    /** A staging is built aside, so that nothing has changed unless it is ``whole``. */
    method StageRebuild(change: nat, to: nat, whole: Outcome, f: Fate) returns (r: Outcome)
      requires Valid() && storage.Holds?
      modifies this
      ensures Valid() && storage == old(storage) && asides == old(asides) && backups == old(backups) && (stranded ==> old(stranded))
      ensures r == Done ==> plan == Some(Plan(change, to, Reset, None, None)) && extraction == Some(Rebuild(change))
      ensures r == Done ==> storage == Holds(before) && !stranded
      ensures whole != Done ==> r != Done && AsBefore()
      ensures r == Failed && GoesBack(f) && (old(extraction).Some? || old(plan).None?) ==> AsBefore()
      ensures whole == Done && Smooth(f) ==> r == Done
    {
      staging, r := None, whole;
      if r != Done { return; }
      staging := Some(Rebuild(change));
      r := PublishStage(change, to, f);
    }

    /** Every run, cut anywhere: the configuration is always somewhere the plan says, unless a boot left its copy without a
        name; no backup of an emptied .storage is recorded, none is lost, and no plan meets another change's extraction. */
    method Life(events: seq<Event>)
      requires Valid()
      modifies this
      ensures Valid() && old(backups) <= backups
      ensures !old(stranded) && (forall i :: 0 <= i < |events| && events[i].Boot? ==> !CannotGoBack(events[i].f)) ==> Kept()
    {
      for i := 0 to |events|
        invariant Valid() && old(backups) <= backups
        invariant !old(stranded) && (forall k :: 0 <= k < i && events[k].Boot? ==> !CannotGoBack(events[k].f)) ==> !stranded
      {
        match events[i]
        case Boot(wanted, restored, failed, usable, stamp, f) =>
          if stamp !in asides { var _, _ := ResetStorage(wanted, restored, false, failed, usable, stamp, f); }
        case BootRestoring(config, wanted, usable, stamp, f) =>
          if stamp !in asides && !Switched() {
            RestoreStorage(config);
            var _, _ := ResetStorage(wanted, true, true, false, usable, stamp, f);
          }
        case Run(config) => HomeAssistantRuns(config);
        case Upload => UploadBackup();
        case Stage(change, to, whole, f) => if storage.Holds? { var _ := StageRebuild(change, to, whole, f); }
        case Drop(f) => if storage.Holds? { var _ := DropRebuild(f); }
      }
    }
  }

  datatype Event = Boot(wanted: nat, restored: bool, failed: bool, usable: bool, stamp: string, f: Fate)
                 | BootRestoring(config: nat, wanted: nat, usable: bool, stamp: string, f: Fate)
                 | Run(config: nat) | Upload | Stage(change: nat, to: nat, whole: Outcome, f: Fate) | Drop(f: Fate)

  function Fine(s: Step): Outcome { Done }

  function Stuck(s: Step): Outcome { if s == MakeEmpty || s == ReturnCopy then Failed else Done }

  method Staged(config: nat, to: nat) returns (v: Volume)
    ensures fresh(v) && v.Valid() && !v.stranded && v.before == config && v.storage == Holds(config) && v.asides == map[] && v.backups == {}
    ensures v.plan == Some(Plan(0, to, Reset, None, None)) && v.extraction == Some(Rebuild(0))
  {
    hide Volume.Kept, CopyOf;
    v := new Volume(config);
    var staged := v.StageRebuild(0, to, Done, Fine);
  }

  /** A boot renames .storage, can neither make an empty one nor put it back, and rewrites the plan. */
  method Strand(config: nat, to: nat) returns (v: Volume)
    ensures fresh(v) && v.Valid() && v.stranded && v.before == config && v.storage == Gone && v.asides == map["1" := Holds(config)]
    ensures v.GoesAhead(to, false, true) && v.plan.value.bootBackup == Some(Holds(config)) && Holds(config) in v.backups
  {
    hide Volume.Valid, Volume.InAside, Volume.OnlyCopy, Volume.LosesName, Smooth, CannotGoBack;
    v := Staged(config, to);
    NameIsLost(v);
    var _, _ := v.ResetStorage(to, false, false, false, true, "1", Stuck);
    IsBackedUp(v);
  }

  lemma IsBackedUp(v: Volume)
    requires v.Valid() && v.plan.Some? && v.plan.value.bootBackup.Some?
    ensures v.plan.value.bootBackup.value in v.backups
  {
  }

  lemma NameIsLost(v: Volume)
    requires v.plan.Some? && v.storage.Holds?
    ensures v.LosesName(Stuck)
  {
  }

  /** The next boot of the same version then empties what is not there and drops every copy but its own, which it does not
      have: the boot backup alone is left. */
  method OnlyTheBackupIsLeft(config: nat, to: nat) returns (v: Volume)
    ensures v.Valid() && v.before == config && v.storage == Empty && v.asides == map[]
    ensures v.plan.Some? && v.plan.value.bootBackup == Some(Holds(config)) && Holds(config) in v.backups
  {
    hide Volume.InAside, CopyOf;
    v := Strand(config, to);
    var _, reset := v.ResetStorage(to, false, false, false, true, "2", Fine);
    assert reset;
  }
}
