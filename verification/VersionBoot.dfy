/** What a boot and a request do, as functions on values. Every change of a file is one step; ``cut`` names the one the
    process is killed right after. */
module VersionBoot {
  import opened VersionWorld
  import opened VersionHistory

  datatype Point =
    | Nowhere
    // a boot
    | Woken | FallbackScheduled | FallbackSaved | Installed | OrphanRecorded | OrphanDropped | ForeignDropped
    | CopyTaken | HalfRestored | OutcomeSaved | ScheduleRemoved
    | AsideReturned | PlanRemoved | StorageSetAside | StorageEmptied | ChoiceSaved | BootRecorded | BootCounted
    // a request
    | BackedUp | RestoreScheduled | PlanDropped | PlanWritten | DesiredSet | OldRestoreDropped

  /** What a boot meets. ``half``: whose .storage a restore leaves that is killed half way. */
  datatype Fate = Fate(
    cut: Point, schedules: bool, installs: bool, archiveGone: bool, restores: bool, half: Option<Version>,
    sourceGone: bool, setsAside: bool, putsBack: bool)

  /** A volume with nothing recorded: the newest release, the image's own version, and one that is installed. */
  datatype Offer = Offer(newest: Version, baked: Version, pick: Version, bakes: bool)

  /** Between two steps of a life. ``wrote``: the version that runs has written its configuration; ``settled``: its boot no
      longer counts as a failed one. */
  datatype Machine = Machine(saved: HaState, world: World, told: History, up: Option<Version>, wrote: bool, settled: bool)
  {
    function Down(): Machine {
      this.(up := None, wrote := false, settled := false)
    }
  }

  const Fresh: Machine :=
    Machine(HaState(None, None, None, Unrecorded, None, None, None, 0, None, None), World(None, None, None, {}, map[], 0, None),
            History(None, None, false, None, 0, []), None, false, false)

  function Own(backup: string, target: Version): Schedule {
    Schedule(backup, Some(target), true, false, None)
  }

  // ----- a boot -----------------------------------------------------------------------------

  /** A boot at work: ha.json, the state it works on, and what it has found out. ``failures``: the count it found. */
  datatype Work = Work(
    saved: HaState, state: HaState, world: World, told: History, configFor: Option<Version>, failures: nat,
    fellBack: bool, restored: bool, ended: bool)
  {
    function Save(cut: bool): Work {
      this.(saved := state, ended := cut)
    }

    function Unscheduled(cut: bool): Work {
      this.(world := world.Unscheduled(), ended := cut)
    }

    /** What has to come back if ``w`` is left for ``t``. */
    function Owed(w: Version, t: Version): Option<Recovery> {
      if state.change.Some? && state.change.value.to == w && state.change.value.applied then
        Some(Recovery(state.change.value.backup, w, t, world.now))
      else if state.recovery.Some? && state.recovery.value.left == w then
        Some(state.recovery.value.(target := t, at := world.now))
      else None
    }

    /** ... can be scheduled. */
    predicate Schedules(owed: Option<Recovery>, t: Version, f: Fate) {
      owed.None? || (f.schedules && owed.value.backup in world.backups && world.backups[owed.value.backup] <= t)
    }

    /** Leave ``w``, which crashed too often, for ``t``, if the configuration from before can come back. */
    function FallBack(w: Version, t: Version, f: Fate): Work {
      var owed := Owed(w, t);
      var ok := Schedules(owed, t, f);
      var early := if ok && owed.Some? then this.(world := world.(schedule := Some(Own(owed.value.backup, t)))) else this;
      if f.cut == FallbackScheduled then early.(ended := true)
      else
        var s := told.Fallen(state, w, if owed.Some? then owed else state.recovery, ok);
        early.(state := s, told := told.FellBack(state, w, s), fellBack := ok).Save(f.cut == FallbackSaved)
    }

    function CrashFallback(f: Fate): (r: Work)
      requires state.Wanted().Some?
      ensures r.state.Wanted().Some?
    {
      var w := state.Wanted().value;
      if state.failures < MAX_BOOT_FAILURES then this
      else if !state.Leaves(w, world.venvs) then Save(f.cut == FallbackSaved)
      else FallBack(w, state.FallbackTarget().value, f)
    }

    function Install(f: Fate): (r: Work)
      requires state.Wanted().Some?
      ensures r.state.Wanted().Some?
    {
      var w := state.Wanted().value;
      if w in world.venvs then this
      else if f.installs then this.(world := world.(venvs := world.venvs + {w}), ended := f.cut == Installed)
      else if state.current.Some? then this.(state := state.(desired := state.current))
      else this.(ended := true)
    }

    /** A restore whose archive is gone is recorded as failed and dropped. */
    function DropOrphan(f: Fate): (r: Work)
      ensures r.state.Wanted() == state.Wanted() && r.told == told
    {
      if world.schedule.None? || world.schedule.value.begun || !f.archiveGone then this
      else
        var r := world.schedule.value;
        var x := this.(state := state.(last := Some(LastRestore(false, r.backup, r.forVersion, r.storage, world.now)))).Save(f.cut == OrphanRecorded);
        if x.ended then x else x.Unscheduled(f.cut == OrphanDropped)
    }

    /** A restore for another version, or one the version that boots cannot read, is dropped. */
    function DropForeign(f: Fate): (r: Work)
      requires state.Wanted().Some?
      ensures r.state == state && r.told == told
    {
      if world.schedule.None? || world.Fits(world.schedule.value, state.Wanted().value) then this else Unscheduled(f.cut == ForeignDropped)
    }

    /** The scheduled restore: copied, applied or put back, recorded, and then removed. */
    function ApplyPending(f: Fate): (r: Work)
      requires state.Wanted().Some?
      requires world.schedule.Some? ==> world.schedule.value.backup in world.backups
      ensures r.state.Wanted() == state.Wanted() && r.told.trace == told.trace
    {
      if world.schedule.None? then this
      else
        var begun, r := world.Begun(), world.schedule.value;
        if f.cut == CopyTaken then this.(world := begun, ended := true)
        else if f.cut == HalfRestored then this.(world := if r.storage then begun.(writer := f.half) else begun, ended := true)
        else Conclude(begun, f)
    }

    /** The outcome is in ha.json before the schedule goes. */
    function Conclude(begun: World, f: Fate): Work
      requires state.Wanted().Some?
      requires begun.schedule.Some? && begun.schedule.value.backup in begun.backups
    {
      var x := Outcome(begun, f);
      if x.ended then x else x.Unscheduled(f.cut == ScheduleRemoved)
    }

    function Outcome(begun: World, f: Fate): (r: Work)
      requires state.Wanted().Some?
      requires begun.schedule.Some? && begun.schedule.value.backup in begun.backups
      ensures r.world.schedule == begun.schedule
    {
      this.(world := if f.restores then begun.Restored() else begun.PutBack(),
            told := told.Concluded(state, begun.schedule.value, f.restores), restored := true,
            state := state.(last := Some(begun.Outcome(f.restores, state.Wanted().value)))).Save(f.cut == OutcomeSaved)
    }

    predicate StorageRestored() {
      restored && state.last.Some? && state.last.value.ok && state.last.value.storage
    }

    /** A recovery waits for ``wanted``, and no restore stands for it. */
    predicate Missed()
      requires state.Wanted().Some?
    {
      state.Recovers(state.Wanted().value) && !state.CameBack(restored)
    }

    function SettleRecovery(): (r: Work)
      requires state.Wanted().Some?
      ensures r.state.Wanted().Some? && r == this.(state := r.state, configFor := r.configFor)
    {
      var w := state.Wanted().value;
      var x := if StorageRestored() then this.(configFor := Some(w)) else this;
      if !state.Recovers(w) then x
      else if Missed() then x.(state := state.(desired := Some(state.recovery.value.left)))
      else x.(configFor := if restored then x.configFor else Some(w), state := state.(recovery := None))
    }

    /** Either ``writer`` becomes nobody, or the plan goes. */
    function ResetStorage(f: Fate): (r: Work)
      requires state.Wanted().Some?
      ensures r.state == state && r.told == told
    {
      if world.plan.None? then this
      else
        var w, p := state.Wanted().value, world.plan.value;
        var ok := restored && state.last.Some? && state.last.value.ok;
        if ok || (restored && w != p.to) || (p.stage != Importing && (w != p.to || f.sourceGone)) then DropPlan(f)
        else if p.stage == Importing then this
        else if p.stage == Renaming then Emptied(f)
        else if !f.setsAside then this
        else
          var x := this.(world := world.(plan := Some(Plan(w, Renaming, world.writer)), writer := None));
          if f.cut == StorageSetAside then x.(ended := true) else x.Emptied(f)
    }

    function Emptied(f: Fate): Work
      requires world.plan.Some?
    {
      this.(world := world.(plan := Some(world.plan.value.(stage := Importing))), ended := f.cut == StorageEmptied)
    }

    /** The set-aside .storage goes back, if nothing took its place, and the plan is removed. */
    function DropPlan(f: Fate): Work
      requires world.plan.Some?
    {
      var p := world.plan.value;
      var x := if p.stage == Renaming && !StorageRestored() && world.writer.None? && f.putsBack
               then this.(world := world.(writer := p.aside, plan := Some(p.(stage := Reset))), ended := f.cut == AsideReturned) else this;
      if x.ended then x else x.(world := x.world.(plan := None), ended := f.cut == PlanRemoved)
    }

    /** The wanted version's change needed .storage replaced or emptied, and neither this boot nor a cut one did it: the
        current version stays. */
    predicate Misses(w: Version) {
      && state.change.Some? && state.change.value.to == w && state.change.value.mode != Keep
      && state.current.Some? && state.current != Some(w)
      && !(state.change.value.mode == Restore && (if restored then StorageRestored() && state.last.value.forVersion == Some(w) else state.OwnBefore()))
      && !(state.change.value.mode == Rebuild && world.Rebuilt(w))
    }

    function CompleteChange(): (r: Work)
      requires state.Wanted().Some?
      ensures r.state.Wanted().Some? && r == this.(state := r.state, configFor := r.configFor)
    {
      var w := state.Wanted().value;
      var x := if world.Rebuilt(w) then this.(configFor := Some(w)) else this;
      if state.change.None? then x
      else if state.change.value.to != w then x.(state := state.(change := None))
      else
        var y := if !restored && state.OwnBefore() then x.(configFor := Some(w)) else x;
        if Misses(w) then y.(state := state.(desired := state.current, change := None))
        else y.(state := state.(change := Some(state.change.value.(applied := true))))
    }

    /** What is scheduled, if it is for the version that boots. */
    function ApplyRestore(f: Fate): (r: Work)
      requires state.Wanted().Some?
      ensures r.state.Wanted() == state.Wanted() && r.told.trace == told.trace
    {
      var a := DropOrphan(f);
      if a.ended then a
      else
        var b := a.DropForeign(f);
        if b.ended then b else b.ApplyPending(f)
    }

    /** Schedule, recovery, plan and change, in that order; the wanted version may be another one afterwards. */
    function ApplyConfigChanges(f: Fate): (r: Work)
      requires state.Wanted().Some?
      ensures r.state.Wanted().Some?
    {
      var c := ApplyRestore(f);
      if c.ended then c
      else if c.Missed() then c.SettleRecovery()
      else
        var d := c.SettleRecovery().ResetStorage(f);
        if d.ended then d else d.CompleteChange()
    }

    predicate Kept(w: Version) {
      state.change.Some? && state.change.value.to == w && state.change.value.mode == Keep
    }

    /** What the next fallback would go back to: never a version that was given up. */
    function Previous(w: Version): Option<Version> {
      if fellBack || (state.fallbackFrom.Some? && state.fallbackFrom == state.current && state.current != Some(w)) then None
      else if state.current.Some? && state.current != Some(w) && failures < MAX_BOOT_FAILURES then state.current
      else state.previous
    }

    /** Two saves: what boots, and one more in the count. */
    function Record(w: Version, f: Fate): Work {
      this.(state := world.Committed(state, w, Previous(w), state.failures), told := told.Resolved(state)).Save(f.cut == BootRecorded)
    }

    function Count(f: Fate): Work {
      this.(state := state.(failures := state.failures + 1), told := told.Tried()).Save(f.cut == BootCounted)
    }

    function Rest(): Machine {
      Machine(saved, world, told, None, false, false)
    }

    predicate LetThrough(w: Version) {
      !Refuses(w, world.haVersion, state.proven, configFor, Kept(w))
    }

    /** Start Home Assistant, unless the configuration is a newer version's. */
    function Launch(f: Fate): (r: (Machine, Option<Start>))
      requires state.Wanted().Some?
    {
      var w := state.Wanted().value;
      if !LetThrough(w) then (Rest(), None)
      else
        var recorded := Record(w, f);
        if recorded.ended then (recorded.Rest(), None)
        else
          var counted := recorded.Count(f);
          if counted.ended then (counted.Rest(), None)
          else (Machine(counted.saved, world, counted.told.Begins(w), Some(w), false, false), Some(Start(w, state, world, told.Resolved(state))))
    }

    /** Nothing is recorded: the newest release, or what is installed, or the image's own version, which is recorded. */
    function FirstVersion(f: Fate, o: Offer): Work {
      if f.installs || o.newest in world.venvs then Take(o.newest, f)
      else if o.pick in world.venvs then Take(o.pick, f)
      else if o.bakes then var x := Take(o.baked, f); if x.ended then x else x.Save(f.cut == ChoiceSaved)
      else this.(ended := true)
    }

    function Take(w: Version, f: Fate): Work {
      this.(world := world.(venvs := world.venvs + {w}), state := state.(desired := Some(w)), ended := f.cut == Installed)
    }
  }

  function Wake(m: Machine, f: Fate): Work {
    Work(m.saved, m.saved.Seeded(), m.world.Tick(), m.told, None, m.saved.failures, false, false, f.cut == Woken)
  }

  /** The version to boot, installed, with the configuration that belongs to it in place. */
  function Prepare(m: Machine, f: Fate, o: Offer): (r: Work)
    ensures !r.ended ==> r.state.Wanted().Some?
  {
    var a := Wake(m, f);
    if a.ended then a
    else if a.state.Wanted().None? then a.FirstVersion(f, o)
    else
      var b := a.CrashFallback(f);
      if b.ended then b
      else
        var c := b.Install(f);
        if c.ended then c else c.ApplyConfigChanges(f)
  }

  function BootOf(m: Machine, f: Fate, o: Offer): (Machine, Option<Start>) {
    var x := Prepare(m, f, o);
    if x.ended then (x.Rest(), None) else x.Launch(f)
  }

  // ----- while Home Assistant runs ----------------------------------------------------------

  /** The process ended, without a word. */
  function Crashed(m: Machine): Machine {
    m.Down()
  }

  /** ... or was stopped, which takes back the count of a boot not yet marked ok. */
  function StoppedOf(m: Machine): Machine {
    if m.settled || m.saved.failures == 0 then m.Down()
    else m.(saved := m.saved.(failures := m.saved.failures - 1), told := m.told.(trace := m.told.trace + [Stopped])).Down()
  }

  /** Home Assistant writes its configuration. */
  function WroteOf(m: Machine): Machine
    requires m.up.Some?
  {
    m.(world := m.world.Written(m.up.value), wrote := true)
  }

  /** The boot is good, once. */
  function MarkOkOf(m: Machine): Machine
    requires m.up.Some?
  {
    if m.settled then m
    else
      var s := m.world.Settled(m.saved, m.up.value);
      m.(saved := s, told := m.told.Settles(s), settled := true)
  }

  // ----- what is asked of the manager -------------------------------------------------------

  /** Drop what is scheduled for a version change. */
  function ChangeRestoreDropped(w: World): World {
    if w.schedule.Some? && w.schedule.value.forVersion.Some? then w.Unscheduled() else w
  }

  /** A backup made now, of a configuration version ``made`` can read. */
  function WithBackup(w: World, name: string, made: Version): World {
    w.Tick().(backups := w.backups[name := made])
  }

  /** Why a change to ``to`` is not taken: it runs, the mode needs a downgrade or a backup it can read, a switch back
      waits for its restart, or a restore by hand is scheduled that the change would replace or the version not read. */
  predicate Refused(m: Machine, to: Version, mode: Mode, source: string)
    requires m.up.Some? && m.saved.Wanted().Some?
  {
    var v, w := m.up.value, m.world;
    var byHand := w.schedule.Some? && w.schedule.value.ByHand();
    || to == v || (mode == Rebuild && to > v) || (mode == Restore && (source !in w.backups || w.backups[source] > to))
    || m.saved.Recovers(m.saved.Wanted().value)
    || (byHand && (mode != Keep || (w.schedule.value.storage && (w.schedule.value.backup !in w.backups || w.backups[w.schedule.value.backup] > to))))
  }

  /** What the change to ``to`` starts with, prepared before the change is recorded. */
  function PreparedFor(m: Machine, to: Version, mode: Mode, source: string, cut: Point): Machine {
    if mode == Restore then
      var x := m.(world := m.world.(schedule := Some(Own(source, to))));
      if cut == RestoreScheduled then x.Down()
      else var y := x.(world := x.world.(plan := None)); if cut == PlanDropped then y.Down() else y
    else if mode == Rebuild then
      var x := m.(world := m.world.(plan := None));
      if cut == PlanDropped then x.Down()
      else var y := x.(world := x.world.(plan := Some(Plan(to, Reset, None)))); if cut == PlanWritten then y.Down() else y
    else m
  }

  function Desires(m: Machine, to: Version, change: Option<Change>): Machine {
    m.(saved := m.world.Requested(m.saved, to, change), told := m.told.Asked(None))
  }

  /** After the new record: what no longer fits it. */
  function LeftoversDropped(m: Machine, mode: Mode, cut: Point): Machine {
    if mode == Restore then m
    else
      var x := m.(world := ChangeRestoreDropped(m.world));
      if cut == OldRestoreDropped then x.Down()
      else if mode == Keep then x.(world := x.world.(plan := None))
      else x
  }

  /** Another version is asked for: a backup, what the version starts with, the record, and then what an older change
      left. ``source``: the backup a restore comes from. */
  function ChangeVersionOf(m: Machine, to: Version, mode: Mode, source: string, backup: string, cut: Point): Machine
    requires m.up.Some? && m.saved.Wanted().Some?
  {
    if Refused(m, to, mode, source) || backup in m.world.backups then m
    else
      var a := m.(world := WithBackup(m.world, backup, m.up.value));
      if cut == BackedUp then a.Down()
      else
        var b := PreparedFor(a, to, mode, source, cut);
        if b.up.None? then b else ChangeRecorded(b, to, mode, backup, cut)
  }

  function ChangeRecorded(m: Machine, to: Version, mode: Mode, backup: string, cut: Point): Machine
    requires m.up.Some?
  {
    var x := Desires(m, to, Some(Change(to, mode, backup, false, m.world.now, m.up.value)));
    if cut == DesiredSet then x.Down() else LeftoversDropped(x, mode, cut)
  }

  /** The running version is asked for: the change goes, and what it prepared. */
  function CancelChangeOf(m: Machine, cut: Point): Machine
    requires m.up.Some?
  {
    var a := m.(world := ChangeRestoreDropped(m.world));
    if cut == OldRestoreDropped then a.Down()
    else
      var b := a.(world := a.world.(plan := None));
      if cut == PlanDropped then b.Down() else Desires(b, m.up.value, None)
  }

  /** A restore by hand, for whatever boots next; refused while a change waits for its own. */
  function RestoreByHandOf(m: Machine, backup: string, storage: bool, cut: Point): Machine
    requires m.up.Some? && m.saved.Wanted().Some?
  {
    var s, w := m.saved, m.world;
    if backup !in w.backups || (storage && w.backups[backup] > s.Wanted().value) then m
    else if s.change.Some? && s.change.value.mode != Keep && s.change.value.to != m.up.value then m
    else
      var x := m.(world := w.(schedule := Some(Schedule(backup, None, storage, false, None))));
      if cut == RestoreScheduled then x.Down() else x.(world := x.world.(plan := None))
  }

  /** The version ha.json waits to boot; a schedule for it stays with it. */
  function ChangingTo(s: HaState): Option<Version> {
    if s.change.Some? then Some(s.change.value.to)
    else if s.desired.Some? && s.desired != s.current && s.recovery.Some? && Some(s.recovery.value.target) == s.desired then s.desired
    else None
  }

  function CancelRestoreOf(m: Machine): Machine {
    if m.world.schedule.Some? && m.world.schedule.value.forVersion.Some? && m.world.schedule.value.forVersion == ChangingTo(m.saved) then m
    else m.(world := m.world.Unscheduled())
  }

  /** Whether the integration sets up is judged only after a change that kept the configuration, against the version it was
      asked for on. What is left of another version's judgement goes first, in a write of its own. */
  function SmokeStarted(m: Machine): Machine
    requires m.up.Some?
  {
    var s := m.saved;
    if s.smoke.Some? then if s.smoke.value.version == m.up.value then m else SmokeDropped(m)
    else if s.change.Some? && Some(s.change.value.to) == m.up && s.change.value.mode == Keep then
      m.(saved := s.(smoke := Some(Smoke(m.up.value, s.change.value.from))))
    else m
  }

  function SmokeDropped(m: Machine): Machine {
    m.(saved := m.saved.(smoke := None))
  }

  /** Where a failed judgement of the running version leads. */
  function Back(m: Machine): Option<Version> {
    if m.saved.smoke.Some? && Some(m.saved.smoke.value.version) == m.up then Some(m.saved.smoke.value.back) else None
  }

  /** Give up the running version for ``Back``: backup ``merged``, of a configuration that one can read, its schedule, and
      one write of ha.json. */
  function SwitchBackOf(m: Machine, merged: string, cut: Point): Machine
    requires m.up.Some? && m.saved.Wanted().Some?
  {
    if Back(m).None? then m else SwitchToOf(m, Back(m).value, merged, cut)
  }

  function SwitchToOf(m: Machine, back: Version, merged: string, cut: Point): Machine
    requires m.up.Some? && m.saved.Wanted().Some?
  {
    var v := m.up.value;
    if back == v || back !in m.world.venvs || merged in m.world.backups || m.world.schedule.Some? || m.saved.Wanted() != Some(v) || m.saved.Recovers(v) then m
    else
      var a := m.(world := WithBackup(m.world, merged, back));
      if cut == BackedUp then a.Down()
      else
        var b := a.(world := a.world.(schedule := Some(Own(merged, back))));
        if cut == RestoreScheduled then b.Down() else SwitchRecorded(b, back, merged)
  }

  function SwitchRecorded(m: Machine, back: Version, merged: string): Machine
    requires m.up.Some?
  {
    var s := m.world.SwitchedBack(m.saved, m.up.value, back, merged);
    m.(saved := s, told := m.told.Asked(s.recovery))
  }

  // ----- a life -----------------------------------------------------------------------------

  datatype Request =
    | MarkOk | ChangeVersion(to: Version, mode: Mode, source: string, backup: string) | CancelChange
    | RestoreByHand(name: string, storage: bool) | CancelRestore | StartSmoke | DropSmoke | SwitchBack(merged: string) | RebuildDone

  datatype Event = Boot(fate: Fate, offer: Offer) | Crash | Stop | Write | Asked(request: Request, cut: Point)

  /** What runs only once Home Assistant has written its configuration. */
  function ServedOf(m: Machine, q: Request, cut: Point): Machine
    requires m.up.Some? && m.saved.Wanted().Some?
  {
    match q
    case MarkOk => MarkOkOf(m)
    case ChangeVersion(to, mode, source, backup) => ChangeVersionOf(m, to, mode, source, backup, cut)
    case CancelChange => CancelChangeOf(m, cut)
    case RestoreByHand(backup, storage) => RestoreByHandOf(m, backup, storage, cut)
    case CancelRestore => CancelRestoreOf(m)
    case StartSmoke => SmokeStarted(m)
    case DropSmoke => SmokeDropped(m)
    case SwitchBack(merged) => if m.settled then SwitchBackOf(m, merged, cut) else m
    case RebuildDone => m.(world := m.world.(plan := None))
  }

  function StepOf(m: Machine, e: Event): (Machine, Option<Start>) {
    match e
    case Boot(f, o) => BootOf(m.Down(), f, o)
    case Crash => (Crashed(m), None)
    case Stop => (if m.up.Some? then StoppedOf(m) else m, None)
    case Write => (if m.up.Some? then WroteOf(m) else m, None)
    case Asked(q, cut) => (if m.up.Some? && m.wrote && m.saved.Wanted().Some? then ServedOf(m, q, cut) else m, None)
  }

  /** The volume after a run. */
  function RunOf(m: Machine, events: seq<Event>): Machine {
    if events == [] then m else StepOf(RunOf(m, events[..|events| - 1]), events[|events| - 1]).0
  }
}
