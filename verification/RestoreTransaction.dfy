/** A scheduled restore of the configuration, applied at boot with Home Assistant stopped.
    Every durable operation is one step. At each step the process may be killed, be asked
    to stop (SystemExit, which unwinds), or see the step fail. */
module RestoreTransaction {
  import opened ConfigFiles

  datatype Fate = Done | Fail | Stop | Kill

  datatype Step =
    | Begin | SaveMarked | RemoveMarker | SaveOrphan | RemoveOrphan
    | ReadCopy | ValidateArchive | CreateCopy | RecordCopy
    | OpenArchive | Extract | WipeFile(path: Path) | MoveFile(path: Path) | Chmod
    | OpenCopy | WipeForCopy(path: Path) | ExtractCopy | MoveBack(path: Path) | SaveFailure
    | SaveResult | RemoveSchedule | Sweep | RemoveArchive(zip: string)
    | CopyArchive | WriteSchedule | RemoveBackup(name: string)

  /** How each step of an attempt, a request or a boot goes. */
  type Course = Step -> Fate

  /** One attempt at a restore. ``copy`` is the name its own pre-restore copy gets, if it takes one. */
  datatype Attempt = Attempt(course: Course, copy: string)

  /** What ends a wait after a failed rollback: the next attempt, or the schedule's deletion by hand. */
  datatype Wait = Retry(attempt: Attempt) | Delete

  datatype Schedule = Schedule(name: string, parts: set<Part>, zip: string, preRestore: Option<string>)

  /** What ha.json or a marker says of a finished restore. */
  datatype Record = Record(name: string, ok: bool)

  datatype Outcome =
    | Nothing          // no schedule
    | OrphanDropped    // the schedule's archive copy is gone
    | Applied
    | PutBack          // failed: nothing was changed, or the copy was put back
    | RollbackFailed   // held, and retried
    | Ended            // killed, or stopped: this boot is over

  /** One of the things that can happen to a volume between two boots, or a boot. */
  datatype Event =
    | Boot(first: Attempt, waits: seq<Wait>, drop: bool)
    | HomeAssistantRuns(config: Files)
    | Upload(name: string, backup: Files, recent: bool)
    | ScheduleRestore(name: string, parts: set<Part>, zip: string, course: Course)
    | CancelRestore(course: Course)
    | Prune(keep: int, protect: set<string>, course: Course)

  /** What a boot found scheduled: whether an earlier attempt had begun it, whether its archive has nothing to
      restore, and what it may put in place. */
  datatype Found = Found(begun: bool, empty: bool, drop: bool, target: Files, wanted: Files)

  // ----- courses that lose track -------------------------------------------------------------

  /** Killed at the first move. */
  ghost predicate DiesMoving(c: Course) {
    forall s: Step :: c(s) == if s.MoveFile? then Kill else Done
  }

  /** Neither the recorded copy nor the archive can be read. */
  ghost predicate GivesUp(c: Course) {
    forall s: Step :: c(s) == if s.ReadCopy? || s.OpenArchive? then Fail else Done
  }

  /** Everything goes well, but the outcome cannot be written and the schedule not be renamed. */
  ghost predicate Unrecorded(c: Course) {
    forall s: Step :: c(s) == if s.SaveResult? || s.RemoveSchedule? then Fail else Done
  }

  /** Nothing fails before the outcome is written. */
  ghost predicate Passes(c: Course) {
    forall s: Step :: s.SaveResult? || s.RemoveSchedule? || c(s) == Done
  }

  /** Nothing ends the attempt, and what a failure has to put back can be put back. */
  ghost predicate GoesBack(c: Course) {
    && Uncut(c) && c(OpenCopy) == c(ExtractCopy) == Done
    && forall p :: c(WipeForCopy(p)) == c(MoveBack(p)) == Done
  }

  lemma UncutIfItGoesBack(c: Course)
    ensures GoesBack(c) ==> Uncut(c)
  {
  }

  ghost predicate Uncut(c: Course) {
    forall s: Step :: c(s) in {Done, Fail}
  }

  ghost predicate Unopened(c: Course) {
    forall s: Step :: c(s) == if s.ValidateArchive? then Fail else Done
  }

  // ----- ... and those that do not -----------------------------------------------------------

  /** Neither a copy that cannot be read nor a schedule that outlives its outcome: what keeps track of a restore. */
  ghost predicate KeepsTrack(c: Course) {
    c(ReadCopy) != Fail && (c(RemoveSchedule) != Fail || (c(SaveResult) == Done && forall z :: c(RemoveArchive(z)) == Done))
  }

  /** The archive can be opened, unless the process is killed first. */
  predicate Legible(c: Course) {
    c(ValidateArchive) in {Done, Kill} && c(OpenArchive) in {Done, Kill}
  }

  ghost predicate OnTrack(e: Event) {
    match e
    case Boot(first, waits, _) => KeepsTrack(first.course) && forall i :: 0 <= i < |waits| ==> waits[i].Retry? && KeepsTrack(waits[i].attempt.course)
    case HomeAssistantRuns(now) => IsBackup(now)
    case _ => true
  }

  predicate Reads(e: Event) {
    e.Boot? ==> Legible(e.first.course) && forall i :: 0 <= i < |e.waits| && e.waits[i].Retry? ==> Legible(e.waits[i].attempt.course)
  }

  class Volume {
    var config: Files
    var archives: map<string, Files>   // backups/, newest first in ``order``
    var order: seq<string>
    var young: set<string>             // uploads not yet UPLOAD_GRACE_S old
    var schedule: Option<Schedule>     // restore-pending.json
    var pending: map<string, Files>    // restore-pending-*.zip
    var marker: Option<Record>         // restore-applied.json or restore-failed.json
    var lastRestore: Option<Record>    // ha.json
    var recoverySource: Option<string> // ha.json
    var appBackupRunning: bool

    ghost var before: Files   // the configuration no attempt has changed yet
    ghost var astray: bool    // the recorded copy could not be used, or Home Assistant ran in the middle of an attempt
    ghost var blind: bool     // a rollback ran on a changed configuration without the archive's names

    constructor (config: Files)
      ensures Sound() && this.config == before == config && !astray && !blind && schedule == None && archives == pending == map[]
    {
      this.config, archives, order, young := config, map[], [], {};
      schedule, pending, marker, lastRestore, recoverySource := None, map[], None, None, None;
      appBackupRunning := false;
      before, astray, blind := config, false, false;
    }

    predicate Live()
      reads this`schedule, this`pending
    {
      schedule.Some? && schedule.value.zip in pending
    }

    /** The archive a live schedule restores. */
    function Source(): Files
      requires Live()
      reads this`schedule, this`pending
    {
      pending[schedule.value.zip]
    }

    ghost function Target(): Files
      reads this`schedule, this`pending, this`before
    {
      if Live() then Restored(before, Source(), schedule.value.parts) else before
    }

    /** What a boot puts in place: the selected files of a live schedule's archive. */
    ghost function Wanted(): Files
      reads this`schedule, this`pending, this`before
    {
      if Live() then Select(Source(), schedule.value.parts) else before
    }

    /** The way back exists while the configuration is anything but the one from before. */
    ghost predicate Sound()
      reads this`config, this`archives, this`order, this`schedule, this`pending, this`before, this`astray, this`blind
    {
      && Listed(archives.Keys, order)
      && (astray ||
          if !Live() then config == before
          else
            && (match schedule.value.preRestore
                case None => config == before
                case Some(copy) => copy in archives && archives[copy] == before)
            && Mixed(config, before, Source(), schedule.value.parts)
            && (!blind ==> KeepsUntouched(config, before, Source(), schedule.value.parts)))
    }

    /** A copy of what is in place would be a backup, and stays one whatever is scheduled. */
    ghost predicate Copyable()
      reads this`schedule, this`pending, this`before
    {
      IsBackup(before) && (Live() ==> IsBackup(Source()))
    }

    /** Whatever the state: if the configuration is not the one from before, the schedule is still there
        and names the copy that holds it. */
    lemma WayBack()
      requires Sound() && !astray && config != before
      ensures schedule.Some? && schedule.value.preRestore.Some?
      ensures schedule.value.preRestore.value in archives && archives[schedule.value.preRestore.value] == before
      ensures schedule.value.preRestore.value in RestoreNeeds()
    {
    }

    function RestoreNeeds(): set<string>
      reads this
    {
      (match schedule case None => {} case Some(s) => {s.name} + (if s.preRestore.Some? then {s.preRestore.value} else {})) +
      (if recoverySource.Some? then {recoverySource.value} else {})
    }

    // ----- shapes of a restore ------------------------------------------------------------

    /** Scheduled, with something to restore; no attempt took a copy yet. */
    ghost predicate Unbegun(copy: string)
      reads this`schedule, this`pending, this`archives
    {
      Restorable(copy) && schedule.value.preRestore.None? && Select(Source(), schedule.value.parts) != map[]
    }

    /** Scheduled with an archive that is a backup; the name for a new copy is free. */
    ghost predicate Restorable(copy: string)
      reads this`schedule, this`pending, this`archives
    {
      Live() && IsBackup(Source()) && copy !in archives
    }

    /** An earlier attempt took the copy, which is a backup. */
    ghost predicate Begun()
      reads this`schedule, this`pending, this`archives
    {
      Live() && schedule.value.preRestore.Some? && schedule.value.preRestore.value in archives && IsBackup(archives[schedule.value.preRestore.value])
    }

    twostate predicate CopyTaken(copy: string)
      reads this`schedule, this`pending, this`archives, this`before, this`astray
    {
      && old(Live()) && Live() && archives == old(archives)[copy := old(config)] && before == old(before) && astray == old(astray)
      && schedule == Some(old(schedule).value.(preRestore := Some(copy))) && Source() == old(Source())
    }

    /** Wiped, and nothing moved in. */
    twostate predicate Halved(copy: string)
      reads this`schedule, this`pending, this`archives, this`before, this`astray, this`config
    {
      CopyTaken(copy) && config == AfterWipe(old(config), Select(Source(), schedule.value.parts).Keys, schedule.value.parts)
    }

    /** Restored, and still scheduled. */
    twostate predicate Recorded(copy: string)
      reads this`schedule, this`pending, this`archives, this`before, this`astray, this`config
    {
      CopyTaken(copy) && config == Restored(old(config), Source(), schedule.value.parts)
    }

    /** The copy an earlier attempt took is put over what is in place. */
    twostate predicate Overlaid()
      reads this`config
    {
      old(Begun()) && config == Restored(old(config), old(archives[schedule.value.preRestore.value]), old(schedule).value.parts)
    }

    // ----- the volume's own operations ------------------------------------------------------

    method Wipe(names: set<Path>, parts: set<Part>, fates: Path -> Fate) returns (f: Fate)
      modifies this`config
      ensures PartlyWiped(old(config), config, names, parts)
      ensures f == Done ==> config == AfterWipe(old(config), names, parts)
      ensures f == Done || exists p :: p in old(config) && Wiped(p, names, parts) && fates(p) == f
    {
      var doomed := set p | p in config && Wiped(p, names, parts);
      while doomed != {}
        invariant doomed <= config.Keys
        invariant forall p :: p in doomed ==> Wiped(p, names, parts)
        invariant forall p :: p in config ==> p in old(config) && config[p] == old(config)[p]
        invariant forall p :: p in old(config) && (p in doomed || !Wiped(p, names, parts)) ==> p in config
        invariant forall p :: p in config && p !in doomed ==> !Wiped(p, names, parts)
      {
        var p :| p in doomed;
        f := fates(p);
        if f != Done { return; }
        config, doomed := config - {p}, doomed - {p};
      }
      f := Done;
    }

    /** A file arrives only if its own move went through. */
    method MoveInto(files: Files, fates: Path -> Fate) returns (f: Fate)
      modifies this`config
      ensures PartlyMoved(old(config), config, files)
      ensures f == Done ==> config == old(config) + files
      ensures f == Done <==> forall p :: p in files ==> fates(p) == Done
      ensures f == Done || exists p :: p in files && fates(p) == f
      ensures forall p :: p in config && fates(p) != Done ==> p in old(config) && config[p] == old(config)[p]
    {
      var rest := files.Keys;
      while rest != {}
        invariant rest <= files.Keys
        invariant PartlyMoved(old(config), config, files)
        invariant forall p :: p in files && p !in rest ==> p in config && config[p] == files[p] && fates(p) == Done
        invariant forall p :: p in config && fates(p) != Done ==> p in old(config) && config[p] == old(config)[p]
      {
        var p :| p in rest;
        f := fates(p);
        if f != Done { return; }
        config, rest := config[p := files[p]], rest - {p};
      }
      f := Done;
    }

    /** A backup of everything on the volume, published in one rename under a name of its own. */
    method Create(name: string, c: Course) returns (f: Fate)
      modifies this`archives, this`order
      ensures f == if name in old(archives) then Fail else c(CreateCopy)
      ensures f == Done ==> archives == old(archives)[name := config] && order == [name] + old(order)
      ensures f != Done ==> archives == old(archives) && order == old(order)
    {
      f := if name in archives then Fail else c(CreateCopy);
      if f != Done { return; }
      archives, order := archives[name := config], [name] + order;
    }

    /** A state file written or not: the record of an outcome. */
    method SaveOutcome(r: Record, recovery: Option<string>, f: Fate)
      modifies this`lastRestore, this`recoverySource
      ensures f == Done ==> lastRestore == Some(r) && recoverySource == recovery
      ensures f != Done ==> lastRestore == old(lastRestore) && recoverySource == old(recoverySource)
    {
      if f == Done { lastRestore, recoverySource := Some(r), recovery; }
    }

    /** Removing archive copies no schedule needs; each removal may silently fail. */
    method DropStalePending(keep: set<string>, c: Course)
      modifies this`pending
      ensures forall z :: z in pending <==> z in old(pending) && (z in keep || c(RemoveArchive(z)) != Done)
      ensures forall z :: z in pending ==> pending[z] == old(pending)[z]
    {
      pending := map z | z in pending && (z in keep || c(RemoveArchive(z)) != Done) :: pending[z];
    }

    /** A schedule without its archive copy. Neither a record nor a removal that fails keeps the other from happening. */
    method DropOrphan(c: Course) returns (o: Outcome)
      requires Sound() && !Live()
      modifies this`schedule, this`pending, this`lastRestore, this`recoverySource
      ensures Sound() && !Live()
      ensures o in {Nothing, OrphanDropped, Ended} && (o == Nothing <==> old(schedule).None?)
      ensures o == Ended <==> old(schedule).Some? && (c(SaveOrphan) in {Stop, Kill} || c(RemoveOrphan) in {Stop, Kill})
      ensures if c(SaveOrphan) == Done && old(schedule).Some? then lastRestore == Some(Record(old(schedule).value.name, false))
              else lastRestore == old(lastRestore) && recoverySource == old(recoverySource)
      ensures schedule == if c(SaveOrphan) in {Done, Fail} && c(RemoveOrphan) == Done then None else old(schedule)
    {
      if schedule.None? {
        DropStalePending({}, c);
        return Nothing;
      }
      SaveOutcome(Record(schedule.value.name, false), None, c(SaveOrphan));
      if c(SaveOrphan) in {Kill, Stop} || c(RemoveOrphan) in {Kill, Stop} { return Ended; }
      if c(RemoveOrphan) == Done { schedule := None; }
      DropStalePending({}, c);
      o := OrphanDropped;
    }

    // ----- applying -------------------------------------------------------------------------

    /** This attempt rejects the copy an earlier one recorded, and takes one of a configuration that was changed since. */
    ghost predicate LosesCopy(c: Course)
      reads this`schedule, this`pending, this`config, this`before, this`archives
    {
      && Live() && schedule.value.preRestore.Some? && config != before
      && var copy := schedule.value.preRestore.value;
         c(ReadCopy) == Fail || (c(ReadCopy) == Done && !(copy in archives && IsBackup(archives[copy])))
    }

    lemma ReadsCopy(c: Course)
      requires Sound()
      ensures !astray && IsBackup(before) && c(ReadCopy) != Fail ==> !LosesCopy(c)
    {
    }

    /** The copy an earlier attempt recorded, when it can still be used. */
    method FindCopy(c: Course) returns (f: Fate, pre: Option<string>)
      requires Sound() && Live()
      modifies this`astray
      ensures Sound() && f in {Done, Stop, Kill}
      ensures f == if schedule.value.preRestore.Some? && c(ReadCopy) in {Stop, Kill} then c(ReadCopy) else Done
      ensures astray == (old(astray) || old(LosesCopy(c)))
      ensures pre.Some? <==> f == Done && schedule.value.preRestore.Some? && c(ReadCopy) == Done
                             && schedule.value.preRestore.value in archives && IsBackup(archives[schedule.value.preRestore.value])
      ensures pre.Some? ==> pre == schedule.value.preRestore
      ensures f == Done && pre.None? && !astray ==> config == before
    {
      pre, f := None, Done;
      var s := schedule.value;
      if s.preRestore.Some? {
        if c(ReadCopy) in {Stop, Kill} { return c(ReadCopy), None; }
        if c(ReadCopy) == Done && s.preRestore.value in archives && IsBackup(archives[s.preRestore.value]) {
          pre := s.preRestore;
        } else {
          astray := astray || config != before;
        }
      }
    }

    /** Copy the configuration and record the copy in the schedule, before anything is changed. */
    method TakeCopy(copy: string, c: Course) returns (f: Fate)
      requires Sound() && Live() && (!astray ==> config == before)
      modifies this`archives, this`order, this`schedule
      ensures Sound() && SameRestore(old(schedule), old(pending))
      ensures f == Done ==> schedule.value.preRestore == Some(copy) && archives == old(archives)[copy := config]
      ensures f == if copy in old(archives) then Fail else if c(CreateCopy) != Done then c(CreateCopy) else c(RecordCopy)
    {
      f := Create(copy, c);
      if f != Done { return; }
      f := c(RecordCopy);
      if f == Done { schedule := Some(schedule.value.(preRestore := Some(copy))); }
    }

    ghost predicate SameRestore(s: Option<Schedule>, p: map<string, Files>)
      reads this
    {
      && Live() && s.Some? && pending == p
      && schedule.value.zip == s.value.zip && schedule.value.parts == s.value.parts && schedule.value.name == s.value.name
    }

    method WipeSelected(c: Course) returns (f: Fate)
      requires Sound() && Live() && schedule.value.preRestore.Some?
      modifies this`config
      ensures Sound()
      ensures f == Done ==> config == AfterWipe(old(config), Select(Source(), schedule.value.parts).Keys, schedule.value.parts)
      ensures f == Done || exists p :: c(WipeFile(p)) == f
    {
      hide IsBackup, Listed, Mixed, KeepsUntouched, PartlyWiped, AfterWipe;
      var s, a := schedule.value, Source();
      f := Wipe(Select(a, s.parts).Keys, s.parts, p => c(WipeFile(p)));
      if !astray { MixedUnderWipe(old(config), config, Select(a, s.parts).Keys, before, a, s.parts); }
    }

    method MoveSelected(c: Course) returns (f: Fate)
      requires Sound() && Live() && schedule.value.preRestore.Some?
      modifies this`config
      ensures Sound()
      ensures f == Done ==> config == old(config) + Select(Source(), schedule.value.parts)
      ensures f == Done || exists p :: c(MoveFile(p)) == f
      ensures (forall p :: c(MoveFile(p)) != Done) ==> config == old(config) && (f == Done ==> Select(Source(), schedule.value.parts) == map[])
    {
      hide IsBackup, Listed, Mixed, KeepsUntouched, PartlyMoved, Select;
      var s, a := schedule.value, Source();
      f := MoveInto(Select(a, s.parts), p => c(MoveFile(p)));
      if !astray { MixedUnderMove(old(config), config, Select(a, s.parts), before, a, s.parts); }
      NothingArrives(old(config), config, Select(a, s.parts), p => c(MoveFile(p)));
    }

    /** The staged files take the place of what the wipe removes. */
    method Exchange(c: Course) returns (f: Fate)
      requires Sound() && Live() && schedule.value.preRestore.Some?
      modifies this`config
      ensures Sound()
      ensures f == Done ==> config == Restored(old(config), Source(), schedule.value.parts)
      ensures DiesMoving(c) && Select(Source(), schedule.value.parts) != map[] ==>
                f == Kill && config == AfterWipe(old(config), Select(Source(), schedule.value.parts).Keys, schedule.value.parts)
      ensures (forall p :: c(WipeFile(p)) == c(MoveFile(p)) == Done) ==> f == c(Chmod)
      ensures Uncut(c) ==> f in {Done, Fail}
    {
      hide Sound, AfterWipe, Select;
      f := WipeSelected(c);
      if f != Done { return; }
      f := MoveSelected(c);
      if f != Done { return; }
      f := c(Chmod);
    }

    /** Stage, wipe and move. ``names`` is empty until the archive's names were read; ``wiped`` is set
        right before the first change. */
    method Replace(c: Course) returns (f: Fate, names: set<Path>, wiped: bool)
      requires Sound() && Live() && schedule.value.preRestore.Some?
      modifies this`config
      ensures Sound()
      ensures names == if c(OpenArchive) == Done then Select(Source(), schedule.value.parts).Keys else {}
      ensures !wiped ==> config == old(config)
      ensures wiped <==> names != {} && c(Extract) == Done
      ensures f == Done ==> wiped && config == Restored(old(config), Source(), schedule.value.parts)
      ensures !wiped ==> f == if c(OpenArchive) != Done then c(OpenArchive) else if names == {} then Fail else c(Extract)
      ensures wiped && DiesMoving(c) ==> f == Kill && config == AfterWipe(old(config), names, schedule.value.parts)
      ensures wiped && (forall p :: c(WipeFile(p)) == c(MoveFile(p)) == Done) ==> f == c(Chmod)
      ensures Uncut(c) ==> f in {Done, Fail}
    {
      hide Sound, Restored, AfterWipe;
      names, wiped, f := {}, false, c(OpenArchive);
      if f != Done { return; }
      names := Select(Source(), schedule.value.parts).Keys;
      if names == {} { return Fail, names, wiped; }
      f := c(Extract);
      if f != Done { return; }
      wiped := true;
      f := Exchange(c);
    }

    /** Wipe by the archive's names, or by the copy's own when they were never read, then put the copy back. */
    method RollBack(copy: string, names: set<Path>, c: Course) returns (f: Fate)
      requires Sound() && Live() && schedule.value.preRestore == Some(copy)
      requires copy in archives
      requires names == {} || names == Select(Source(), schedule.value.parts).Keys
      modifies this`config, this`blind
      ensures Sound()
      ensures blind == (old(blind) || (names == {} && c(OpenCopy) == Done))
      ensures f == Done ==> c(OpenCopy) == Done
      ensures f == Done ==> var back := Select(archives[copy], schedule.value.parts);
                            config == AfterWipe(old(config), if names != {} then names else back.Keys, schedule.value.parts) + back
      ensures (forall s :: c(s) != Done ==> s.ValidateArchive?) || GoesBack(c) ==> f == Done
      ensures Uncut(c) ==> f in {Done, Fail}
      ensures f == Done && !astray ==> Keeps(config, before)
      ensures f == Done && !astray && names != {} ==> config == before
      ensures f == Done && !astray && names == {} ==>
                (config == before <==> NoResidue(old(config), before, schedule.value.parts))
    {
      var parts := schedule.value.parts;
      f := c(OpenCopy);
      if f != Done { return; }
      var back := Select(archives[copy], parts);
      if names == {} { blind := true; }
      ghost var was := config;
      f := Wipe(if names != {} then names else back.Keys, parts, p => c(WipeForCopy(p)));
      if !astray { MixedUnderWipe(was, config, if names != {} then names else back.Keys, before, Source(), parts); }
      if f != Done { return; }
      f := c(ExtractCopy);
      if f != Done { return; }
      ghost var emptied := config;
      f := MoveInto(back, p => c(MoveBack(p)));
      if !astray {
        MixedUnderMove(emptied, config, back, before, Source(), parts);
        if names != {} {
          RollbackIsExact(was, before, Source(), parts);
        } else {
          BlindRollback(was, before, Source(), parts);
        }
      }
    }

    /** The outcome is on the volume before the schedule goes: in ha.json, or as the renamed schedule. */
    ghost predicate Known(r: Record)
      reads this`lastRestore, this`marker
    {
      lastRestore == Some(r) || marker == Some(r)
    }

    /** The schedule outlives its outcome: it could not be removed, and its archive stays as well. */
    predicate Outlives(c: Course)
      reads this`schedule, this`pending
    {
      Live() && c(RemoveSchedule) == Fail && (c(SaveResult) != Done || c(RemoveArchive(schedule.value.zip)) != Done)
    }

    /** Record the outcome, then drop the schedule: remove it, or rename it to a marker. Once no live schedule is left,
        the configuration that is in place is the one a next restore starts from. */
    method Finish(ok: bool, c: Course) returns (ended: bool)
      requires Sound() && Live()
      modifies this`lastRestore, this`recoverySource, this`marker, this`schedule, this`pending, this`before
      ensures Sound()
      ensures before == (if Live() then old(before) else config)
      ensures schedule.None? ==> Known(Record(old(schedule).value.name, ok))
      ensures schedule.Some? ==> schedule == old(schedule)
      ensures schedule.None? <==> c(SaveResult) in {Done, Fail} && c(RemoveSchedule) == Done
      ensures c(SaveResult) == Done ==> lastRestore == Some(Record(old(schedule).value.name, ok)) && recoverySource.None?
      ensures ended <==> c(SaveResult) in {Stop, Kill} || c(RemoveSchedule) in {Stop, Kill} || c(Sweep) in {Stop, Kill}
      ensures !ended ==> (Live() <==> old(Outlives(c)))
      ensures Uncut(c) ==> !ended
      ensures forall z :: z in pending ==> z in old(pending) && pending[z] == old(pending)[z]
      ensures !ended && !Live() ==> forall z :: z in pending ==> c(RemoveArchive(z)) != Done
    {
      hide Known, Mixed, KeepsUntouched, Listed, IsBackup, Select;
      var zip := schedule.value.zip;
      ended := RecordAndRemove(Record(schedule.value.name, ok), c);
      if ended || c(Sweep) in {Stop, Kill} { return true; }
      DropStalePending(if c(SaveResult) == Done || schedule.None? then {} else {zip}, c);
      if !Live() { before := config; }
    }

    method RecordAndRemove(r: Record, c: Course) returns (ended: bool)
      requires Sound() && Live()
      modifies this`lastRestore, this`recoverySource, this`marker, this`schedule, this`before
      ensures Sound() && (if schedule.None? then before == config && Known(r) else schedule == old(schedule) && before == old(before))
      ensures schedule.None? <==> c(SaveResult) in {Done, Fail} && c(RemoveSchedule) == Done
      ensures c(SaveResult) == Done ==> lastRestore == Some(r) && recoverySource.None?
      ensures ended <==> c(SaveResult) in {Stop, Kill} || c(RemoveSchedule) in {Stop, Kill}
    {
      hide Mixed, KeepsUntouched, Listed, IsBackup, Select;
      ended := true;
      SaveOutcome(r, None, c(SaveResult));
      if c(SaveResult) in {Stop, Kill} || c(RemoveSchedule) in {Stop, Kill} { return; }
      if c(RemoveSchedule) == Done {
        if c(SaveResult) != Done { marker := Some(r); }
        schedule, before := None, config;
      }
      ended := false;
    }

    /** Everything of an attempt that may raise. */
    method TryReplace(a: Attempt) returns (f: Fate, pre: Option<string>, wiped: bool, names: set<Path>)
      requires Sound() && Live()
      modifies this`config, this`archives, this`order, this`schedule, this`astray
      ensures Sound() && SameRestore(old(schedule), old(pending))
      ensures astray == (old(astray) || old(LosesCopy(a.course)))
      // the way back: what is recorded once the archive's names are known
      ensures names != {} && !old(astray) ==>
                schedule.value.preRestore.Some? && schedule.value.preRestore.value in archives &&
                (archives[schedule.value.preRestore.value] == before <==> !old(LosesCopy(a.course)))
      ensures names == {} || names == Select(Source(), schedule.value.parts).Keys
      ensures names == {} ==> config == old(config)
      ensures names == {} && Legible(a.course) && IsBackup(Source()) && Select(Source(), schedule.value.parts) != map[] ==> !wiped || f == Kill
      ensures wiped ==> pre.Some? && pre == schedule.value.preRestore && pre.value in archives
      ensures !wiped && !astray && f == Fail ==> config == before
      ensures f == Done ==> names != {} && config == Restored(old(config), Source(), schedule.value.parts)
      ensures old(Unbegun(a.copy)) && DiesMoving(a.course) ==> f == Kill && Halved(a.copy)
      ensures old(Restorable(a.copy)) && GivesUp(a.course) ==> f == Fail && !wiped && names == {}
      ensures old(Unbegun(a.copy)) && Unrecorded(a.course) ==> f == Done && Recorded(a.copy)
      ensures old(Restorable(a.copy) && !Empty()) && Passes(a.course) ==> f == Done
      ensures Uncut(a.course) ==> f in {Done, Fail}
      ensures old(Begun()) && Unopened(a.course) ==> f == Fail && wiped && names == {} && schedule == old(schedule) && archives == old(archives)
    {
      hide Mixed, KeepsUntouched, Listed, IsBackup, Restored, AfterWipe, Select;
      wiped, names := false, {};
      f, pre := FindCopy(a.course);
      if f != Done { return; }
      var touched;
      wiped := pre.Some?;
      f, pre, names, touched := Proceed(a, pre);
      wiped := wiped || touched;
    }

    method HaveCopy(a: Attempt, found: Option<string>) returns (f: Fate, pre: Option<string>)
      requires Sound() && Live()
      requires if found.Some? then found == schedule.value.preRestore && found.value in archives else !astray ==> config == before
      modifies this`archives, this`order, this`schedule
      ensures Sound() && SameRestore(old(schedule), old(pending))
      ensures found.Some? ==> f == Done && schedule == old(schedule) && archives == old(archives)
      ensures found.None? ==> f == if a.copy in old(archives) then Fail
                                   else if a.course(CreateCopy) != Done then a.course(CreateCopy) else a.course(RecordCopy)
      ensures pre.Some? ==> pre == schedule.value.preRestore && (found.Some? || f == Done)
      ensures f == Done ==> archives == if found.Some? then old(archives) else old(archives)[a.copy := config]
      ensures f == Done ==> pre == if found.Some? then found else Some(a.copy)
    {
      pre, f := found, Done;
      if found.None? {
        f := TakeCopy(a.copy, a.course);
        if f == Done { pre := Some(a.copy); }
      }
    }

    /** The attempt, once the copy an earlier one took is found, or none is. */
    method Proceed(a: Attempt, found: Option<string>) returns (f: Fate, pre: Option<string>, names: set<Path>, wiped: bool)
      requires Sound() && Live()
      requires if found.Some? then found == schedule.value.preRestore && found.value in archives else !astray ==> config == before
      modifies this`config, this`archives, this`order, this`schedule
      ensures Sound() && SameRestore(old(schedule), old(pending))
      ensures found.Some? ==> pre == found && schedule == old(schedule) && archives == old(archives)
      ensures pre.Some? ==> pre == schedule.value.preRestore && pre.value in archives
      ensures pre.Some? && found.None? ==> pre == Some(a.copy) && archives == old(archives)[a.copy := old(config)]
      ensures names == {} || (pre.Some? && names == Select(Source(), schedule.value.parts).Keys)
      ensures wiped ==> names != {}
      ensures !wiped ==> config == old(config)
      ensures names == {} && Legible(a.course) && IsBackup(Source()) && Select(Source(), schedule.value.parts) != map[] ==> found.None? || f == Kill
      ensures f == Done ==> names != {} && config == Restored(old(config), Source(), schedule.value.parts)
      ensures old(Unbegun(a.copy)) && found.None? && DiesMoving(a.course) ==>
                f == Kill && pre.Some? && config == AfterWipe(old(config), Select(Source(), schedule.value.parts).Keys, schedule.value.parts)
      ensures old(Restorable(a.copy)) && found.None? && GivesUp(a.course) ==> f == Fail && names == {}
      ensures old(Restorable(a.copy)) && Select(Source(), schedule.value.parts) != map[] && Passes(a.course) ==> f == Done
      ensures Uncut(a.course) ==> f in {Done, Fail}
      ensures Unopened(a.course) ==> f == Fail && names == {}
    {
      hide Sound, Restored, AfterWipe, IsBackup;
      pre, names, wiped := found, {}, false;
      f := a.course(ValidateArchive);
      if f == Done && !IsBackup(Source()) { f := Fail; }
      if f != Done { return; }
      f, pre := HaveCopy(a, found);
      if f != Done { return; }
      assert Select(Source(), schedule.value.parts) != map[] ==> Select(Source(), schedule.value.parts).Keys != {};
      hide Select;
      f, names, wiped := Replace(a.course);
    }

    /** After a failure: put the copy back where the attempt, or an earlier one, changed something. */
    method Undo(f: Fate, pre: Option<string>, wiped: bool, names: set<Path>, c: Course) returns (o: Outcome)
      requires f in {Fail, Stop} && Sound() && Live()
      requires names == {} || names == Select(Source(), schedule.value.parts).Keys
      requires wiped ==> pre.Some? && pre == schedule.value.preRestore && pre.value in archives
      requires !wiped && !astray && f == Fail ==> config == before
      modifies this`config, this`blind, this`lastRestore, this`recoverySource, this`pending
      ensures Sound() && o in {Ended, PutBack, RollbackFailed} && SameSchedule(old(schedule), old(pending))
      ensures blind == (old(blind) || (wiped && names == {} && c(OpenCopy) == Done))
      ensures o == RollbackFailed ==> schedule.value.preRestore.Some? && FailureTold(schedule.value.name, schedule.value.preRestore, c)
      ensures o in {PutBack, Ended} && c(SaveFailure) !in {Stop, Kill} ==> lastRestore == old(lastRestore) && recoverySource == old(recoverySource)
      ensures o == PutBack ==> pending == old(pending)
      ensures f == Fail && !wiped ==> o == PutBack && config == old(config)
      ensures f == Fail && GoesBack(c) ==> o == PutBack
      ensures f == Fail && wiped && Unopened(c) ==>
                o == PutBack && (names == {} ==> config == Restored(old(config), archives[pre.value], schedule.value.parts))
      ensures o == PutBack && !astray ==> Keeps(config, before)
      ensures o == PutBack && !astray && (names != {} || !blind) ==> config == before
      ensures o == PutBack && !astray && names == {} ==>
                (config == before <==> NoResidue(old(config), before, schedule.value.parts))
    {
      var g := Done;
      if wiped { g := RollBack(pre.value, names, c); }
      if g in {Stop, Kill} || f == Stop { return Ended; }
      if g == Fail {
        o := HoldFor(pre, c);
      } else {
        o := PutBack;
      }
    }

    /** ha.json says that the restore did not come through, and which backup is the way back; or it is as it was. */
    twostate predicate FailureTold(name: string, way: Option<string>, c: Course)
      reads this`lastRestore, this`recoverySource
    {
      if c(SaveFailure) == Done then lastRestore == Some(Record(name, false)) && recoverySource == way
      else lastRestore == old(lastRestore) && recoverySource == old(recoverySource)
    }

    /** A rollback that failed: recorded, with the copy to go back to, and the schedule stays. */
    method HoldFor(pre: Option<string>, c: Course) returns (o: Outcome)
      requires Sound() && Live()
      modifies this`lastRestore, this`recoverySource, this`pending
      ensures Sound() && SameSchedule(old(schedule), old(pending))
      ensures o == if c(SaveFailure) in {Stop, Kill} then Ended else RollbackFailed
      ensures FailureTold(schedule.value.name, pre, c)
    {
      SaveOutcome(Record(schedule.value.name, false), pre, c(SaveFailure));
      if c(SaveFailure) in {Stop, Kill} { return Ended; }
      DropStalePending({schedule.value.zip}, c);
      o := RollbackFailed;
    }

    ghost predicate SameSchedule(s: Option<Schedule>, p: map<string, Files>)
      reads this
    {
      Live() && schedule == s && schedule.value.zip in p && Source() == p[schedule.value.zip]
    }

    /** One attempt at a live schedule, up to its outcome. ``named`` tells whether the archive's names were
        read. */
    method AttemptOrUndo(a: Attempt) returns (o: Outcome, ghost named: bool)
      requires Sound() && Live()
      modifies this`config, this`archives, this`order, this`schedule, this`astray, this`blind, this`lastRestore, this`recoverySource, this`pending
      ensures Sound() && o in {Applied, PutBack, RollbackFailed, Ended}
      ensures Live() && Source() == old(Source()) && schedule.value == old(schedule).value.(preRestore := schedule.value.preRestore)
      ensures astray == (old(astray) || old(LosesCopy(a.course)))
      ensures old(blind) ==> blind
      ensures Target() == old(Target()) && Wanted() == old(Wanted())
      ensures Legible(a.course) && IsBackup(Source()) && Select(Source(), schedule.value.parts) != map[] ==> blind == old(blind)
      ensures o == RollbackFailed ==> schedule.value.preRestore.Some? && FailureTold(schedule.value.name, schedule.value.preRestore, a.course)
      // applied: exactly the archive's configuration, unless a file the restore keeps was lost earlier
      ensures o == Applied && !astray ==>
                (config == old(Target()) <==> KeepsUntouched(old(config), before, Source(), schedule.value.parts))
      ensures o == Applied && !astray && !old(blind) ==> config == old(Target())
      ensures o == Applied ==> Keeps(config, old(Wanted()))
      // put back: every original file, and nothing else when the names were read
      ensures o == PutBack && !astray ==> Keeps(config, before)
      ensures o == PutBack && !astray && (named || !blind) ==> config == before
      ensures o == PutBack && !astray && !named ==>
                (config == before <==> NoResidue(old(config), before, schedule.value.parts))
      ensures o in {Applied, PutBack} && !astray && Copyable() ==> IsBackup(config)
      ensures old(Unbegun(a.copy)) && DiesMoving(a.course) ==> o == Ended && Halved(a.copy)
      ensures old(Restorable(a.copy)) && GivesUp(a.course) ==> o == PutBack && config == old(config)
      ensures old(Unbegun(a.copy)) && Unrecorded(a.course) ==> o == Applied && Recorded(a.copy)
      ensures old(Restorable(a.copy) && !Empty()) && Passes(a.course) ==> o == Applied
      ensures GoesBack(a.course) ==> o in {Applied, PutBack}
      ensures old(Begun()) && Unopened(a.course) ==> o == PutBack && Overlaid()
    {
      hide LosesCopy, DiesMoving, GivesUp, Unrecorded, Unopened, Legible, Halved, Recorded, Unbegun, Restorable, IsBackup, Listed, Uncut, GoesBack;
      hide Mixed, Restored, Select, Keeps, KeepsUntouched, NoResidue;
      UncutIfItGoesBack(a.course);
      var f, pre, wiped, names := TryReplace(a);
      named := names != {};
      if f == Kill { return Ended, named; }
      if f != Done {
        o := Undo(f, pre, wiped, names, a.course);
        KeepsABackup(config, before);
      } else {
        o := Applied;
        RestoredIsKept(old(config), Source(), schedule.value.parts);
        if !astray {
          RetryIsExact(old(config), before, Source(), schedule.value.parts);
          if Copyable() { RestoredIsBackup(old(config), before, Source(), schedule.value.parts); }
        }
      }
    }

    /** One attempt at a live schedule and the record of its outcome. */
    method ApplyLive(a: Attempt) returns (o: Outcome)
      requires Sound() && Live()
      modifies this
      ensures Sound()
      ensures astray == (old(astray) || old(LosesCopy(a.course)))
      ensures old(blind) ==> blind
      ensures Legible(a.course) && IsBackup(old(Source())) && Select(old(Source()), old(schedule).value.parts) != map[] ==> blind == old(blind)
      // the configuration the next attempt counts as "before" changes only to what was asked for
      ensures !astray && !blind ==> before == old(before) || before == old(Target())
      ensures o == Applied && !astray && !blind ==> config == old(Target())
      ensures o == PutBack && !astray && !blind ==> config == old(before)
      // even after a rollback without the archive's names, every file from before is back or every file asked for is in place
      ensures o in {Applied, PutBack} && !astray ==> Keeps(config, old(before)) || Keeps(config, old(Wanted()))
      ensures !astray ==> Keeps(before, old(before)) || Keeps(before, old(Wanted()))
      ensures !astray && old(Copyable()) ==> Copyable()
      ensures o in {Applied, PutBack} && !Live() ==> before == config
      ensures o in {Applied, PutBack} ==> (Live() <==> old(Outlives(a.course)))
      ensures o in {Applied, PutBack, RollbackFailed, Ended}
      ensures Live() ==> Source() == old(Source()) && schedule.value == old(schedule).value.(preRestore := schedule.value.preRestore)
      ensures o == RollbackFailed ==> Live() && schedule.value.preRestore.Some? && before == old(before)
      ensures o == RollbackFailed ==> FailureTold(schedule.value.name, schedule.value.preRestore, a.course)
      ensures o == RollbackFailed ==> Target() == old(Target()) && Wanted() == old(Wanted())
      // never forgotten
      ensures schedule.None? ==> Known(Record(old(schedule.value.name), true)) || Known(Record(old(schedule.value.name), false))
      ensures o in {Applied, PutBack} && schedule.None? ==> Known(Record(old(schedule.value.name), o == Applied))
      // a failure that can be undone is undone, and over
      ensures GoesBack(a.course) ==> o in {Applied, PutBack}
      ensures o in {Applied, PutBack} && a.course(SaveResult) == Done ==> lastRestore == Some(Record(old(schedule.value.name), o == Applied))
      ensures o in {Applied, PutBack} && a.course(RemoveSchedule) == Done ==> schedule.None?
      ensures old(Unbegun(a.copy)) && DiesMoving(a.course) ==> o == Ended && Halved(a.copy)
      ensures old(Restorable(a.copy)) && GivesUp(a.course) ==> o == PutBack && config == old(config) && schedule.None?
      ensures old(Unbegun(a.copy)) && Unrecorded(a.course) ==> o == Applied && Recorded(a.copy)
      ensures old(Restorable(a.copy) && !Empty()) && Passes(a.course) && a.course(SaveResult) == a.course(RemoveSchedule) == Done ==>
                o == Applied && schedule.None? && lastRestore == Some(Record(old(schedule).value.name, true)) && Keeps(config, old(Wanted()))
      ensures old(Begun()) && Unopened(a.course) ==> o == PutBack && Overlaid()
    {
      hide Sound, IsBackup, Restored, AfterWipe, NoResidue, KeepsUntouched, Select, DiesMoving, Halved, LosesCopy, Legible, Begun, Unbegun, Restorable, Known, FailureTold, Target, Wanted, GoesBack, Uncut;
      UncutIfItGoesBack(a.course);
      ghost var named;
      o, named := AttemptOrUndo(a);
      if o in {Applied, PutBack} {
        var ended := Finish(o == Applied, a.course);
        if ended { o := Ended; }
      }
    }

    method ApplyPending(a: Attempt) returns (o: Outcome)
      requires Sound()
      modifies this
      ensures Sound()
      ensures astray == (old(astray) || old(LosesCopy(a.course)))
      ensures old(blind) ==> blind
      ensures Legible(a.course) && old(Copyable() && !Empty()) ==> blind == old(blind)
      ensures !astray && !blind ==> before == old(before) || before == old(Target())
      ensures o !in {Ended, RollbackFailed} && !astray && !blind ==> config == old(before) || config == old(Target())
      ensures o !in {Ended, RollbackFailed} && !astray ==> Keeps(config, old(before)) || Keeps(config, old(Wanted()))
      ensures !astray ==> Keeps(before, old(before)) || Keeps(before, old(Wanted()))
      ensures !astray && old(Copyable()) ==> Copyable()
      ensures o !in {Ended, RollbackFailed} ==> (Live() <==> old(Outlives(a.course)))
      ensures o == RollbackFailed ==> Live() && before == old(before) && Target() == old(Target()) && Wanted() == old(Wanted()) && Empty() == old(Empty())
      ensures o == RollbackFailed ==> Copyable() == old(Copyable())
      ensures o == RollbackFailed ==> FailureTold(schedule.value.name, schedule.value.preRestore, a.course)
      ensures old(Unbegun(a.copy)) && DiesMoving(a.course) ==> o == Ended && Halved(a.copy)
      ensures old(Restorable(a.copy)) && GivesUp(a.course) ==> o == PutBack && config == old(config) && schedule.None?
      ensures old(Unbegun(a.copy)) && Unrecorded(a.course) ==> o == Applied && Recorded(a.copy)
      ensures old(Restorable(a.copy) && !Empty()) && Passes(a.course) && a.course(SaveResult) == a.course(RemoveSchedule) == Done ==>
                o == Applied && schedule.None? && lastRestore == Some(Record(old(schedule).value.name, true)) && Keeps(config, old(Wanted()))
      ensures old(Begun()) && Unopened(a.course) ==> o == PutBack && Overlaid()
      ensures GoesBack(a.course) ==> o !in {Ended, RollbackFailed}
    {
      if Live() {
        o := ApplyLive(a);
      } else {
        o := DropOrphan(a.course);
      }
    }

    /** Scheduled, though the archive has nothing for the parts asked for. */
    ghost predicate Empty()
      reads this`schedule, this`pending
    {
      Live() && Select(Source(), schedule.value.parts) == map[]
    }

    // ----- a boot, and what happens between boots --------------------------------------------

    /** The marker goes only once ha.json says the same. */
    method MergeMarker(c: Course)
      modifies this`lastRestore, this`recoverySource, this`marker
      ensures marker == if c(SaveMarked) == Done && c(RemoveMarker) == Done then None else old(marker)
      ensures old(marker).Some? ==> Known(old(marker).value)
    {
      if marker.Some? {
        SaveOutcome(marker.value, None, c(SaveMarked));
        if c(SaveMarked) == Done && c(RemoveMarker) == Done { marker := None; }
      }
    }

    /** By hand, or by a boot of a version the schedule is not for. Over a configuration that an attempt
        changed, the way back goes with the schedule. */
    method CancelRestore(c: Course) returns (ended: bool)
      requires Sound()
      modifies this`pending, this`schedule, this`astray
      ensures Sound() && ended == (c(RemoveSchedule) in {Stop, Kill})
      ensures astray == (old(astray) || (!ended && config != before))
      ensures schedule == if c(RemoveSchedule) == Done then None else old(schedule)
      ensures Live() ==> old(Live()) && schedule == old(schedule) && Source() == old(Source())
      ensures !ended ==> forall z :: z in pending ==> c(RemoveArchive(z)) != Done
    {
      ended := c(RemoveSchedule) in {Stop, Kill};
      if ended { return; }
      astray := astray || config != before;
      if c(RemoveSchedule) == Done { schedule := None; }
      DropStalePending({}, c);
    }

    /** Another attempt, or the schedule is deleted by hand and the configuration is started as it is. */
    method WaitOnce(w: Wait) returns (o: Outcome)
      requires Sound() && Live()
      modifies this
      ensures Sound() && (old(astray) ==> astray) && (old(blind) ==> blind)
      ensures w.Delete? ==> o == Nothing && schedule.None? && config == old(config)
      ensures w.Retry? && GoesBack(w.attempt.course) ==> o !in {Ended, RollbackFailed}
      ensures !astray && !blind ==> before == old(before) || before == old(Target())
      ensures o !in {Ended, RollbackFailed} && !astray && !blind ==> config == old(before) || config == old(Target())
      ensures o !in {Ended, RollbackFailed} && !astray ==> Keeps(config, old(before)) || Keeps(config, old(Wanted()))
      ensures !astray ==> Keeps(before, old(before)) || Keeps(before, old(Wanted()))
      ensures !astray && old(Copyable()) ==> Copyable()
      ensures o == RollbackFailed ==> w.Retry? && Live() && StillAsked()
      ensures old(Copyable()) && w.Retry? && KeepsTrack(w.attempt.course) ==> astray == old(astray) && (o !in {Ended, RollbackFailed} ==> !Live())
      ensures old(Copyable() && !Empty()) && (w.Retry? ==> Legible(w.attempt.course)) ==> blind == old(blind) || astray
    {
      hide FailureTold, Halved, Recorded, Overlaid, Unbegun, Restorable, Begun, DiesMoving, GivesUp, Unrecorded, Unopened, Mixed, KeepsUntouched, Listed, GoesBack, Passes;
      if w.Delete? {
        astray := astray || config != before;
        schedule := None;
        return Nothing;
      }
      ReadsCopy(w.attempt.course);
      o := ApplyPending(w.attempt);
    }

    /** The same restore is still to be applied to the same configuration. */
    twostate predicate StillAsked()
      reads this
    {
      before == old(before) && Target() == old(Target()) && Wanted() == old(Wanted()) && Empty() == old(Empty()) && Copyable() == old(Copyable())
    }

    /** Each wait ends in another attempt, or in a schedule deleted by hand; no wait ends in a start on half of each
        configuration while the schedule is there. */
    method HoldAfterFailedRollback(waits: seq<Wait>) returns (o: Outcome)
      requires Sound() && Live()
      modifies this
      ensures Sound() && (old(astray) ==> astray) && (old(blind) ==> blind) && o != RollbackFailed
      ensures waits == [] ==> astray == old(astray)
      ensures waits != [] && waits[0].Delete? ==> o == Nothing && schedule.None? && config == old(config)
      ensures waits != [] && waits[0].Retry? && GoesBack(waits[0].attempt.course) ==> o != Ended
      ensures !astray && !blind ==> before == old(before) || before == old(Target())
      ensures o != Ended && !astray && !blind ==> config == old(before) || config == old(Target())
      ensures o != Ended && !astray ==> Keeps(config, old(before)) || Keeps(config, old(Wanted()))
      ensures !astray ==> Keeps(before, old(before)) || Keeps(before, old(Wanted()))
      ensures !astray && old(Copyable()) ==> Copyable()
      ensures old(Copyable()) && (forall i :: 0 <= i < |waits| ==> waits[i].Retry? && KeepsTrack(waits[i].attempt.course)) ==>
                astray == old(astray) && (o != Ended ==> !Live())
      ensures old(Copyable() && !Empty()) && (forall i :: 0 <= i < |waits| && waits[i].Retry? ==> Legible(waits[i].attempt.course)) ==> blind == old(blind) || astray
    {
      hide Sound, Target, Wanted, Empty, Copyable, Live, GoesBack, KeepsTrack, Legible;
      assert Keeps(before, before);
      hide Keeps;
      o := RollbackFailed;
      for i := 0 to |waits|
        invariant Sound() && Live() && (old(astray) ==> astray) && (old(blind) ==> blind) && StillAsked()
        invariant i == 0 ==> config == old(config) && astray == old(astray) && blind == old(blind)
        invariant i > 0 ==> waits[0].Retry? && !GoesBack(waits[0].attempt.course)
        invariant old(Copyable()) && (forall k :: 0 <= k < i ==> waits[k].Retry? && KeepsTrack(waits[k].attempt.course)) ==> astray == old(astray)
        invariant old(Copyable() && !Empty()) && (forall k :: 0 <= k < i && waits[k].Retry? ==> Legible(waits[k].attempt.course)) ==> blind == old(blind) || astray
      {
        o := WaitOnce(waits[i]);
        if o != RollbackFailed { return; }
      }
      o := Ended;
    }

    method ApplyOrHold(first: Attempt, waits: seq<Wait>) returns (o: Outcome)
      requires Sound()
      modifies this
      ensures Sound() && (old(astray) ==> astray) && (old(blind) ==> blind) && o != RollbackFailed
      ensures !astray && !blind ==> before == old(before) || before == old(Target())
      ensures o != Ended && !astray && !blind ==> config == old(before) || config == old(Target())
      ensures o != Ended && !astray ==> Keeps(config, old(before)) || Keeps(config, old(Wanted()))
      ensures !astray ==> Keeps(before, old(before)) || Keeps(before, old(Wanted()))
      ensures !astray && old(Copyable()) ==> Copyable()
      ensures waits == [] ==> astray == (old(astray) || old(LosesCopy(first.course)))
      ensures old(Copyable()) && OnTrack(Event.Boot(first, waits, false)) ==> astray == old(astray) && (o != Ended ==> !Live())
      ensures old(Copyable() && !Empty()) && Reads(Event.Boot(first, waits, false)) ==> blind == old(blind) || astray
      ensures old(Unbegun(first.copy)) && DiesMoving(first.course) ==> o == Ended && Halved(first.copy)
      ensures old(Restorable(first.copy)) && GivesUp(first.course) ==> o == PutBack && config == old(config) && schedule.None?
      ensures old(Unbegun(first.copy)) && Unrecorded(first.course) ==> o == Applied && Recorded(first.copy)
      ensures old(Restorable(first.copy) && !Empty()) && Passes(first.course) && first.course(SaveResult) == first.course(RemoveSchedule) == Done ==>
                o == Applied && schedule.None? && lastRestore == Some(Record(old(schedule).value.name, true)) && Keeps(config, old(Wanted()))
      ensures old(Begun()) && Unopened(first.course) ==> o == PutBack && Overlaid()
      ensures GoesBack(first.course) ==> o != Ended
    {
      hide Sound, Keeps, Restored, LosesCopy, Unbegun, Restorable, Begun, Halved, Recorded, Overlaid;
      ReadsCopy(first.course);
      o := ApplyPending(first);
      if o == RollbackFailed { o := HoldAfterFailedRollback(waits); }
    }

    /** What a boot does before it looks at the archive. */
    method Prepare(drop: bool, c: Course) returns (ended: bool)
      requires Sound()
      modifies this`lastRestore, this`recoverySource, this`marker, this`pending, this`schedule, this`astray
      ensures Sound() && (old(astray) ==> astray)
      ensures Uncut(c) ==> !ended && (drop && c(RemoveSchedule) == Done ==> !Live())
      ensures !drop ==> (ended <==> c(Begin) in {Stop, Kill}) && astray == old(astray) && schedule == old(schedule) && pending == old(pending)
      ensures !old(drop && Live() && config != before) ==> astray == old(astray)
      ensures Live() ==> old(Live())
      ensures Target() in {before, old(Target())} && Wanted() in {before, old(Wanted())}
      ensures (old(Copyable()) ==> Copyable()) && (Empty() ==> old(Empty()))
    {
      hide Sound, Restored, Select, IsBackup;
      MergeMarker(c);
      ended := c(Begin) in {Stop, Kill};
      if !ended && drop && Live() { ended := CancelRestore(c); }
    }

    /** The restore part of a boot. ``drop``: the schedule belongs to a version this boot does not start. Track is kept where
        the copies can be read, no schedule outlives its outcome or is deleted by hand, and none is dropped half way. */
    method Boot(first: Attempt, waits: seq<Wait>, drop: bool) returns (started: bool)
      requires Sound()
      modifies this
      ensures Sound() && (old(astray) ==> astray) && (old(blind) ==> blind)
      ensures !astray && !blind ==> before == old(before) || before == old(Target())
      ensures started && !astray && !blind ==> config == old(before) || config == old(Target())
      ensures started && !astray ==> Keeps(config, old(before)) || Keeps(config, old(Wanted()))
      ensures !astray ==> Keeps(before, old(before)) || Keeps(before, old(Wanted()))
      ensures !astray && old(Copyable()) ==> Copyable()
      ensures old(Copyable() && (drop && Live() ==> config == before)) && OnTrack(Event.Boot(first, waits, drop)) ==>
                astray == old(astray) && (started ==> !Live())
      ensures old(Copyable() && !Empty()) && Reads(Event.Boot(first, waits, drop)) ==> blind == old(blind) || astray
      ensures waits == [] && !drop ==>
                astray == (old(astray) || (first.course(Begin) !in {Stop, Kill} && old(LosesCopy(first.course))))
      ensures !drop && old(Unbegun(first.copy)) && DiesMoving(first.course) ==> !started && Halved(first.copy)
      ensures !drop && old(Restorable(first.copy)) && GivesUp(first.course) ==> started && config == old(config) && schedule.None?
      ensures !drop && old(Unbegun(first.copy)) && Unrecorded(first.course) ==> started && Recorded(first.copy)
      // a restore that nothing stops comes through
      ensures !drop && old(Restorable(first.copy) && !Empty()) && Passes(first.course) && first.course(SaveResult) == first.course(RemoveSchedule) == Done ==>
                started && schedule.None? && lastRestore == Some(Record(old(schedule).value.name, true)) && Keeps(config, old(Wanted()))
      ensures !drop && old(Begun()) && Unopened(first.course) ==> started && Overlaid()
      ensures GoesBack(first.course) ==> started
    {
      hide Sound, Target, Wanted, Restored, IsBackup, Select, AfterWipe, Copyable, Empty;
      started := false;
      var ended := Prepare(drop, first.course);
      if ended { return; }
      var o := ApplyOrHold(first, waits);
      started := o != Ended;
    }

    /** Home Assistant ran: whatever it left is the configuration a later restore starts from. A restore that still goes on
        would go back to the one from before it ran. */
    method HomeAssistantRuns(now: Files)
      requires Sound()
      modifies this`config, this`before, this`astray, this`blind
      ensures Sound() && config == before == now && !blind
      ensures astray == old(Live() && schedule.value.preRestore.Some?)
    {
      config, before, blind := now, now, false;
      astray := Live() && schedule.value.preRestore.Some?;
    }

    /** A backup made or sent by somebody. */
    method Upload(name: string, backup: Files, recent: bool)
      requires Sound() && name !in archives
      modifies this`archives, this`order, this`young
      ensures Sound() && archives == old(archives)[name := backup] && order == [name] + old(order)
      ensures young == old(young) + if recent then {name} else {}
    {
      archives, order := archives[name := backup], [name] + order;
      if recent { young := young + {name}; }
    }

    /** The archive first, under a name of its own, then the schedule: cut between the two, nothing is scheduled. */
    method ScheduleRestore(name: string, parts: set<Part>, zip: string, c: Course)
      requires Sound()
      modifies this`pending, this`schedule, this`astray
      ensures Sound() && (old(astray) ==> astray) && (config == before ==> astray == old(astray))
      ensures if old(Schedules(name, parts, zip, c)) then
                schedule == Some(Schedule(name, parts, zip, None)) && Live() && Source() == archives[name] && IsBackup(Source()) &&
                forall z :: z in pending ==> z == zip || c(RemoveArchive(z)) != Done
              else schedule == old(schedule) && (Live() <==> old(Live())) && (Live() ==> Source() == old(Source()))
    {
      hide Mixed, KeepsUntouched, Listed, IsBackup;
      if name !in archives || !IsBackup(archives[name]) || parts == {} || zip in pending { return; }
      if schedule.Some? && schedule.value.zip == zip { return; }  // the names are made up anew
      if c(CopyArchive) != Done { return; }
      pending := pending[zip := archives[name]];
      if c(WriteSchedule) == Kill { return; }
      if c(WriteSchedule) != Done {
        pending := pending - {zip};
        return;
      }
      astray := astray || config != before;
      schedule := Some(Schedule(name, parts, zip, None));
      Untouched(before, archives[name], parts);
      DropStalePending({zip}, c);
    }

    predicate Schedules(name: string, parts: set<Part>, zip: string, c: Course)
      reads this
    {
      && name in archives && IsBackup(archives[name]) && parts != {} && zip !in pending && (schedule.Some? ==> schedule.value.zip != zip)
      && c(CopyArchive) == Done && c(WriteSchedule) == Done
    }

    method Delete(name: string)
      requires Sound() && name in archives && name !in RestoreNeeds() + young
      modifies this`archives, this`order
      ensures Sound() && archives == old(archives) - {name} && RestoreNeeds() == old(RestoreNeeds())
      ensures order == Those(old(order), archives.Keys)
    {
      ListedWithout(archives.Keys, order, name);
      WithoutThose(archives.Keys, order, name);
      archives, order := archives - {name}, Without(order, name);
    }

    /** Nothing is gone of which a newer one that may go is left. */
    ghost predicate NewestFirst(names: seq<string>, keep: nat, safe: set<string>)
      reads this`archives
    {
      forall i, j :: keep <= i < j < |names| && names[i] !in safe && names[j] !in archives ==> names[i] !in archives
    }

    /** Delete the backups beyond the ``keep`` newest, never one a restore still needs. What a failure leaves are the
        oldest of them. */
    method Prune(keep: int, protect: set<string>, c: Course) returns (complete: bool)
      requires Sound()
      modifies this`archives, this`order
      ensures Sound()
      ensures archives.Keys <= old(archives).Keys && forall n :: n in archives ==> archives[n] == old(archives)[n]
      ensures forall n :: n in old(archives) && n in protect + RestoreNeeds() + young ==> n in archives
      ensures forall i :: 0 <= i < |old(order)| && (i < keep || keep <= 0 || appBackupRunning) ==> old(order)[i] in archives
      ensures keep > 0 ==> NewestFirst(old(order), keep, protect + RestoreNeeds() + young)
      ensures order == Those(old(order), archives.Keys)
      ensures (forall n :: c(RemoveBackup(n)) == Done) ==> complete
      ensures complete && keep > 0 && !appBackupRunning ==>
                forall i :: keep <= i < |old(order)| && old(order)[i] !in protect + RestoreNeeds() + young ==> old(order)[i] !in archives
    {
      hide Mixed, KeepsUntouched, IsBackup, Select, Those, Without;
      AllOfThose(archives.Keys, order);
      if keep <= 0 || appBackupRunning { return true; }
      var safe := protect + RestoreNeeds() + young;
      var all := order;
      ghost var was, needs := archives, RestoreNeeds();
      for i := 0 to |all|
        invariant Sound() && RestoreNeeds() == needs && order == Those(all, archives.Keys)
        invariant archives.Keys <= was.Keys && forall n :: n in archives ==> archives[n] == was[n]
        invariant forall n :: n in was && n in safe ==> n in archives
        invariant forall j :: 0 <= j < |all| && (j < keep || i <= j) ==> all[j] in archives
        invariant forall j :: keep <= j < i && all[j] !in safe ==> all[j] !in archives
      {
        if keep <= i && all[i] !in safe {
          if c(RemoveBackup(all[i])) != Done { return false; }
          ghost var some := archives.Keys;
          Delete(all[i]);
          ThoseOfThose(all, some, archives.Keys);
        }
      }
      complete := true;
    }

    /** Nothing was lost, and nothing an attempt began is left where Home Assistant runs. */
    ghost predicate Calm(running: bool)
      reads this
    {
      !astray && Copyable() && (running ==> config == before && (Live() ==> schedule.value.preRestore.None?))
    }

    /** What can happen between two boots; what Home Assistant has to do with happens only while it runs. */
    method Serve(e: Event, running: bool)
      requires Sound() && !e.Boot?
      modifies this
      ensures Sound() && (OnTrack(e) && old(Calm(running)) ==> Calm(running))
      ensures if e.HomeAssistantRuns? && running then config == before == e.config && !blind
              else config == old(config) && before == old(before) && blind == old(blind) && (old(astray) ==> astray)
    {
      match e
      case HomeAssistantRuns(now) => if running { HomeAssistantRuns(now); }
      case Upload(name, backup, recent) => if name !in archives { Upload(name, backup, recent); }
      case ScheduleRestore(name, parts, zip, c) => if running { ScheduleRestore(name, parts, zip, c); }
      case CancelRestore(c) => if running { var _ := CancelRestore(c); }
      case Prune(keep, protect, c) => var _ := Prune(keep, protect, c);
    }

    /** A boot, with what it finds scheduled and what it may put in place. */
    method ComeUp(e: Event, ghost permitted: set<Files>, ghost asked: set<Files>) returns (running: bool, ghost b: Found)
      requires Sound() && e.Boot?
      requires (!astray && !blind ==> before in permitted) && (!astray ==> HoldsOne(before, asked))
      modifies this
      ensures Sound() && b == old(Found(Live() && schedule.value.preRestore.Some?, Empty(), e.drop, Target(), Wanted()))
      ensures !astray && !blind ==> before in permitted + {b.target} && (running ==> config in permitted + {b.target})
      ensures !astray ==> HoldsOne(before, asked + {b.wanted}) && (running ==> HoldsOne(config, asked + {b.wanted}))
      ensures OnTrack(e) && !(b.drop && b.begun) && old(Calm(false)) ==> Calm(running)
      ensures Reads(e) && !b.empty && old(Calm(false)) && !astray ==> blind == old(blind)
    {
      hide IsBackup, Select, HoldsOne, OnTrack, Reads, Mixed, KeepsUntouched, Listed, Restored;
      b := Found(Live() && schedule.value.preRestore.Some?, Empty(), e.drop, Target(), Wanted());
      ghost var was := before;
      running := Boot(e.first, e.waits, e.drop);
      if !astray {
        KeepsMore(before, was, b.wanted, asked);
        if running { KeepsMore(config, was, b.wanted, asked); }
      }
    }

    /** Every run: boots cut at any step, Home Assistant writing what it likes in between, restores
        scheduled and cancelled, backups pruned. Whenever Home Assistant is started, the configuration is
        one it ran on before the restore, or exactly what a scheduled restore asked for. Where a rollback had to do without
        the archive's names, at least every file of one of these is there.
        This holds of every start if no attempt finds a copy it cannot read, no schedule outlives its outcome, and none that
        was begun is deleted or dropped; and no rollback goes without the names if every archive can be read. */
    method Lifetime(events: seq<Event>) returns (ghost starts: seq<Start>, ghost found: seq<Found>)
      requires Sound() && !astray && !blind && config == before
      modifies this
      ensures Sound()
      ensures forall st :: st in starts && !st.astray ==> st.Whole() && (!st.blind ==> st.config in st.permitted)
      ensures old(Copyable()) && Tracked(events, found) ==> forall st :: st in starts ==> !st.astray
      ensures old(Copyable()) && Tracked(events, found) && Readable(events, found) ==> forall st :: st in starts ==> st.config in st.permitted
    {
      hide Sound, Target, Wanted, IsBackup, Select, HoldsOne, Copyable, Empty, OnTrack, Reads;
      ghost var permitted, asked := {config}, {config};
      ItsOwn(config);
      var running := false;
      starts, found := [], [];
      for i := 0 to |events|
        invariant Sound()
        invariant !astray && !blind ==> before in permitted
        invariant !astray ==> HoldsOne(before, asked)
        invariant running && !astray && !blind ==> config in permitted
        invariant forall st :: st in starts && !st.astray ==> st.Whole() && (!st.blind ==> st.config in st.permitted)
        invariant old(Copyable()) && Tracked(events[..i], found) ==>
                    Calm(running)
        invariant old(Copyable()) && Tracked(events[..i], found) ==> forall st :: st in starts ==> !st.astray
        invariant old(Copyable()) && Tracked(events[..i], found) && Readable(events[..i], found) ==> !blind && forall st :: st in starts ==> !st.blind
      {
        assert events[..i + 1] == events[..i] + [events[i]];
        if events[i].Boot? {
          ghost var b;
          running, b := ComeUp(events[i], permitted, asked);
          permitted, asked := permitted + {b.target}, asked + {b.wanted};
          found := found + [b];
          if running { starts := starts + [Start(config, permitted, asked, astray, blind)]; }
        } else {
          Serve(events[i], running);
          if events[i].HomeAssistantRuns? && running {
            permitted, asked := {config}, {config};
            ItsOwn(config);
          }
        }
      }
    }
  }

  // ----- runs that lose track ------------------------------------------------------------------

  function Smooth(s: Step): Fate { Done }

  function Dying(s: Step): Fate { if s.MoveFile? then Kill else Done }

  function Unreadable(s: Step): Fate { if s.ReadCopy? || s.OpenArchive? then Fail else Done }

  function Unwritable(s: Step): Fate { if s.SaveResult? || s.RemoveSchedule? then Fail else Done }

  function Rejecting(s: Step): Fate { if s.ValidateArchive? then Fail else Done }

  method Scheduled(before: Files, backup: Files, parts: set<Part>) returns (v: Volume)
    requires IsBackup(backup) && Select(backup, parts) != map[]
    ensures fresh(v) && v.Sound() && v.config == v.before == before && v.archives == map["b" := backup] && !v.astray && !v.blind
    ensures v.Live() && v.schedule.value.parts == parts && v.Source() == backup && v.schedule.value.preRestore.None?
  {
    hide Mixed, KeepsUntouched, Listed, IsBackup;
    v := new Volume(before);
    v.Upload("b", backup, false);
    v.ScheduleRestore("b", parts, "z", Smooth);
  }

  /** A restore is killed between the wipe and the first move. The next boot can read neither the copy nor the archive, takes a
      copy of what it finds, and fails: nothing is put back, and Home Assistant is started on the wiped configuration, with
      nothing scheduled. */
  method WayBackIsLost(before: Files, backup: Files, parts: set<Part>) returns (v: Volume, started: bool)
    requires IsBackup(backup) && Select(backup, parts) != map[]
    ensures v.Sound() && started && v.schedule.None? && v.config == AfterWipe(before, Select(backup, parts).Keys, parts)
  {
    hide Volume.Sound, IsBackup, Select, AfterWipe, Keeps;
    v := Scheduled(before, backup, parts);
    var killed := v.Boot(Attempt(Dying, "p"), [], false);
    started := v.Boot(Attempt(Unreadable, "q"), [], false);
  }

  /** That is neither the configuration from before nor the one asked for. */
  lemma NeitherOfTheTwo()
    ensures var core, state := Path(Storage, "core"), Path(Manager, "state.json");
            var before, backup, parts := map[state := "s", core := "old"], map[state := "s", core := "new"], {Storage};
            && IsBackup(before) && IsBackup(backup) && Select(backup, parts) != map[]
            && AfterWipe(before, Select(backup, parts).Keys, parts) !in {before, Restored(before, backup, parts)}
  {
    var core, state := Path(Storage, "core"), Path(Manager, "state.json");
    var before, backup: Files := map[state := "s", core := "old"], map[state := "s", core := "new"];
    assert core in before && core in backup && core in Select(backup, {Storage}).Keys;
    assert core !in AfterWipe(before, Select(backup, {Storage}).Keys, {Storage});
  }

  /** A restore is applied, but its outcome can be written nowhere and the schedule stays. Home Assistant runs; the next boot
      rejects the archive and puts back the copy from before the restore, over all that was written since. */
  method GoesBackTooFar(before: Files, backup: Files, parts: set<Part>, now: Files) returns (v: Volume, started: bool)
    requires IsBackup(before) && IsBackup(backup) && Select(backup, parts) != map[]
    ensures v.Sound() && started && v.config == Restored(now, before, parts)
  {
    hide Volume.Sound, IsBackup, Select, AfterWipe, Keeps, Restored;
    v := Scheduled(before, backup, parts);
    var applied := v.Boot(Attempt(Unwritable, "p"), [], false);
    assert v.schedule.value.preRestore == Some("p") && v.archives["p"] == before && v.Source() == backup;
    v.HomeAssistantRuns(now);
    assert v.Begun();
    started := v.Boot(Attempt(Rejecting, "q"), [], false);
  }

  ghost predicate Tracked(events: seq<Event>, found: seq<Found>) {
    (forall i :: 0 <= i < |events| ==> OnTrack(events[i])) && forall b :: b in found && b.drop ==> !b.begun
  }

  predicate Readable(events: seq<Event>, found: seq<Found>) {
    (forall i :: 0 <= i < |events| ==> Reads(events[i])) && forall b :: b in found ==> !b.empty
  }

  lemma NothingArrives(was: Files, now: Files, files: Files, fates: Path -> Fate)
    requires PartlyMoved(was, now, files)
    requires forall p :: p in now && fates(p) != Done ==> p in was && now[p] == was[p]
    ensures (forall p :: fates(p) != Done) ==> now == was
  {
  }

  /** Every file of one of these is in place. */
  ghost predicate HoldsOne(c: Files, of: set<Files>) {
    exists files :: files in of && Keeps(c, files)
  }

  lemma ItsOwn(c: Files)
    ensures HoldsOne(c, {c})
  {
    assert Keeps(c, c);
  }

  lemma KeepsMore(c: Files, was: Files, wanted: Files, of: set<Files>)
    requires Keeps(c, was) || Keeps(c, wanted)
    requires HoldsOne(was, of)
    ensures HoldsOne(c, of + {wanted})
  {
    assert wanted in of + {wanted};
    if Keeps(c, was) {
      var files :| files in of && Keeps(was, files);
      assert files in of + {wanted} && Keeps(c, files);
    }
  }

  datatype Start = Start(config: Files, permitted: set<Files>, asked: set<Files>, astray: bool, blind: bool)
  {
    ghost predicate Whole() {
      HoldsOne(config, asked)
    }
  }

  /** The list of backups names each of them once. */
  ghost predicate Listed(names: set<string>, order: seq<string>) {
    && (forall n :: n in names <==> n in order)
    && (forall i, j :: 0 <= i < j < |order| ==> order[i] != order[j])
  }

  function Without(s: seq<string>, x: string): (r: seq<string>) {
    if s == [] then [] else (if s[0] == x then [] else [s[0]]) + Without(s[1..], x)
  }

  lemma {:induction false} WithoutElements(s: seq<string>, x: string)
    ensures forall y :: y in Without(s, x) <==> y in s && y != x
  {
    if s != [] {
      WithoutElements(s[1..], x);
    }
  }

  lemma {:induction false} ListedWithout(names: set<string>, order: seq<string>, x: string)
    requires Listed(names, order)
    ensures Listed(names - {x}, Without(order, x))
  {
    WithoutElements(order, x);
    if order != [] {
      var rest := order[1..];
      assert order == [order[0]] + rest;
      assert order[0] !in rest;
      forall n ensures n in names - {order[0]} <==> n in rest { }
      forall i, j | 0 <= i < j < |rest| ensures rest[i] != rest[j] { assert rest[i] == order[i + 1] && rest[j] == order[j + 1]; }
      ListedWithout(names - {order[0]}, rest, x);
      WithoutElements(rest, x);
    }
  }

  /** The names that are in ``some``, in their order. */
  function Those(names: seq<string>, some: set<string>): seq<string> {
    if names == [] then [] else (if names[0] in some then [names[0]] else []) + Those(names[1..], some)
  }

  lemma {:induction false} AllOfThose(some: set<string>, names: seq<string>)
    requires forall n :: n in names ==> n in some
    ensures Those(names, some) == names
  {
    if names != [] { AllOfThose(some, names[1..]); }
  }

  lemma {:induction false} WithoutThose(some: set<string>, names: seq<string>, x: string)
    requires forall n :: n in names ==> n in some
    ensures Without(names, x) == Those(names, some - {x})
  {
    if names != [] { WithoutThose(some, names[1..], x); }
  }

  lemma {:induction false} ThoseOfThose(names: seq<string>, some: set<string>, fewer: set<string>)
    requires fewer <= some
    ensures Those(Those(names, some), fewer) == Those(names, fewer)
  {
    if names != [] {
      ThoseOfThose(names[1..], some, fewer);
      var rest := Those(names[1..], some);
      if names[0] in some { assert ([names[0]] + rest)[1..] == rest; } else { assert [] + rest == rest; }
    }
  }
}
