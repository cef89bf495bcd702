/** What has happened to a volume's versions, as no file on it says: the fallbacks decided, whether their
    configuration came back, which version was started last. What ha.json records must agree with it. */
module VersionHistory {
  import opened VersionWorld

  /** What happens to the boot that is counted: it was started, it was good, it was stopped, or the counter decided. */
  datatype Happening = Counted | Good | Stopped | Decided

  /** The boots since the last good one or decision that ended neither well nor by a stop. */
  function Failed(trace: seq<Happening>): nat {
    if trace == [] then 0
    else
      var n := Failed(trace[..|trace| - 1]);
      match trace[|trace| - 1]
      case Counted => n + 1
      case Stopped => if n > 0 then n - 1 else 0
      case Good => 0
      case Decided => 0
  }

  lemma FailedSoFar(trace: seq<Happening>)
    ensures Failed(trace + [Counted]) == Failed(trace) + 1
    ensures Failed(trace + [Stopped]) == if Failed(trace) > 0 then Failed(trace) - 1 else 0
    ensures Failed(trace + [Good]) == Failed(trace + [Decided]) == 0
  {
    assert forall h: Happening :: (trace + [h])[..|trace + [h]| - 1] == trace;
  }

  /** A start of Home Assistant, and what was true at that moment. */
  datatype Start = Start(version: Version, ha: HaState, world: World, history: History)
  {
    predicate Kept() {
      ha.change.Some? && ha.change.value.to == version && ha.change.value.mode == Keep
    }

    /** Not older than the configuration, unless it was asked for or the files show why; a fallback's version only with
        its configuration or one restored by hand, and no other once that came back; a second version since the last
        request or good boot at most, and never away from one that booted. */
    ghost predicate Rightful() {
      var h := history;
      && world.Safe(ha, version, Kept())
      && (h.owed.Some? ==> h.owed.value.target != version)
      && (h.paid.Some? ==> h.paid == Some(version))
      && (h.last.Some? && (h.changes == 1 || ha.proven == Booted(h.last.value)) ==> h.last == Some(version))
    }
  }

  datatype History = History(
    owed: Option<Recovery>,   // a fallback was decided, and its configuration has not come back
    paid: Option<Version>,    // it came back for this version, and no version was started since
    own: bool,                // ... by the fallback's own restore; otherwise one made by hand stood in for it
    last: Option<Version>,    // the version started last, since the last request
    changes: nat,             // how often a start changed the version since the last request or good boot
    trace: seq<Happening>)
  {
    /** ha.json and the schedule agree with what happened. */
    ghost predicate Agrees(s: HaState, r: Option<Schedule>, venvs: set<Version>) {
      && s.failures == Failed(trace)
      && (owed.Some? ==> s.recovery == owed && !s.AppliedBefore() && paid.None?)
      && (s.Wanted().Some? && s.Recovers(s.Wanted().value) ==> owed.Some? || paid.Some?)
      && (paid.Some? ==>
            && s.Wanted() == paid && paid.value in venvs && s.change.None?
            && s.fallbackFrom.Some? && s.fallbackFrom != paid
            && (s.recovery.Some? ==>
                  own && s.Recovers(paid.value) && (s.AppliedBefore() || (r.Some? && r.value.begun && Pays(r.value, s.recovery.value)))))
      && changes <= 1 && (last.None? ==> changes == 0)
      && (last.Some? ==>
            && last.value in venvs && !s.proven.Unrecorded?
            && (if s.Wanted() == last then
                  && s.current == last && !s.Recovers(last.value)
                  && (changes == 1 ==> s.fallbackFrom.Some? && s.fallbackFrom != last && s.recovery.None? && s.change.None?)
                else
                  && s.Wanted().Some? && (s.current == last || s.current == s.Wanted()) && s.fallbackFrom == last && changes == 0 && s.proven != Booted(last.value)
                  && s.change.None? && (s.recovery.Some? ==>
                        s.current == last && s.recovery.value.left == last.value && s.Recovers(s.Wanted().value))))
    }

    ghost function Tell(s: HaState, r: Option<Schedule>, venvs: set<Version>): Judgement {
      if Agrees(s, r, venvs) then Consistent else Inconsistent
    }

    /** Restore ``r`` is the one fallback ``f`` waits for. */
    static predicate Pays(r: Schedule, f: Recovery) {
      r.backup == f.backup && r.forVersion == Some(f.target)
    }

    lemma SeededAgrees(s: HaState, r: Option<Schedule>, venvs: set<Version>)
      requires Tell(s, r, venvs) == Consistent
      ensures Tell(s.Seeded(), r, venvs) == Consistent
    {
    }

    // ----- a boot -----------------------------------------------------------------------------

    /** A schedule that was not begun pays for nothing. */
    lemma RescheduledAgrees(W: World, s: HaState, r: Option<Schedule>)
      requires W.Judge(s) == Consistent && Tell(s, W.schedule, W.venvs) == Consistent
      requires W.schedule.None? || !W.schedule.value.begun || (r.Some? && r.value.begun && r.value.(before := W.schedule.value.before) == W.schedule.value)
      ensures Tell(s, r, W.venvs) == Consistent
    {
    }

    lemma InstalledAgrees(s: HaState, r: Option<Schedule>, venvs: set<Version>, w: Version)
      requires Tell(s, r, venvs) == Consistent
      ensures Tell(s, r, venvs + {w}) == Consistent
    {
    }

    lemma NotInstalledAgrees(W: World, s: HaState)
      requires W.Judge(s) == Consistent && Tell(s, W.schedule, W.venvs) == Consistent
      requires s.Wanted().Some? && s.Wanted().value !in W.venvs && s.current.Some?
      ensures Tell(s.(desired := s.current), W.schedule, W.venvs) == Consistent
    {
    }

    /** A scheduled restore came through, or what it replaced was put back. */
    function Concluded(s: HaState, r: Schedule, ok: bool): History {
      if ok && owed.Some? && Pays(r, owed.value) then this.(owed := None, paid := Some(owed.value.target), own := true)
      else if !ok && paid.Some? && s.recovery.Some? then this.(owed := s.recovery, paid := None)
      else this
    }

    lemma ConcludedAgrees(W: World, s: HaState, w: Version, ok: bool)
      requires W.Judge(s.Calm()) == Consistent && Tell(s, W.schedule, W.venvs) == Consistent
      requires W.Steady(s.Calm(), w) && W.Applies(w) && W.schedule.value.begun
      ensures Concluded(s, W.schedule.value, ok).Tell(s.(last := Some(W.Outcome(ok, w))), W.schedule, W.venvs) == Consistent
      ensures Concluded(s, W.schedule.value, ok).Tell(s.(last := Some(W.Outcome(ok, w))), None, W.venvs) == Consistent
    {
    }

    lemma OrphanAgrees(W: World, s: HaState, l: LastRestore)
      requires W.Judge(s.Calm()) == Consistent && Tell(s, W.schedule, W.venvs) == Consistent
      requires W.schedule.Some? && !W.schedule.value.begun && !l.ok
      ensures Tell(s.(last := Some(l)), W.schedule, W.venvs) == Consistent
    {
    }

    /** ha.json no longer waits for the fallback's restore: one made by hand stood in for it. */
    function Resolved(s: HaState): History {
      if owed.Some? && s.recovery.None? then this.(owed := None, paid := Some(owed.value.target), own := false) else this
    }

    lemma RecoveryAgrees(W: World, s: HaState, w: Version)
      requires W.Judge(s.Calm()) == Consistent && Tell(s, None, W.venvs) == Consistent && s.Wanted() == Some(w) && s.Recovers(w)
      ensures Resolved(s.(recovery := None)).Tell(s.(recovery := None), None, W.venvs) == Consistent
      ensures !s.AppliedBefore() ==> Tell(s.(desired := Some(s.recovery.value.left)), None, W.venvs) == Consistent
    {
    }

    lemma ChangeAgrees(W: World, s: HaState, w: Version)
      requires W.Judge(s.Calm()) == Consistent && Tell(s, None, W.venvs) == Consistent && s.Wanted() == Some(w) && s.change.Some?
      ensures Tell(s.(change := None), None, W.venvs) == Consistent
      ensures s.change.value.to == w && s.current.Some? && s.current != Some(w) ==> Tell(s.(desired := s.current, change := None), None, W.venvs) == Consistent
      ensures Tell(s.(change := Some(s.change.value.(applied := true))), None, W.venvs) == Consistent
    {
    }

    /** The boot is counted as a failed one. */
    function Tried(): History {
      this.(trace := trace + [Counted])
    }

    /** ``w`` is started. */
    function Begins(w: Version): History {
      this.(paid := None, last := Some(w), changes := if last.Some? && last != Some(w) then changes + 1 else changes)
    }

    lemma StartIsRightful(W: World, s: HaState, w: Version)
      requires W.Judge(s.Calm()) == Consistent && Resolved(s).Tell(s, None, W.venvs) == Consistent && s.Wanted() == Some(w) && !s.Recovers(w)
      requires W.Safe(s, w, Start(w, s, W, Resolved(s)).Kept())
      ensures Start(w, s, W, Resolved(s)).Rightful()
    {
      hide World.Safe;
    }

    lemma StartAgrees(W: World, s: HaState, w: Version, rollback: Option<Version>)
      requires Resolved(s).Tell(s, None, W.venvs) == Consistent
      requires s.Wanted() == Some(w) && w in W.venvs && !s.Recovers(w)
      ensures Resolved(s).Tell(W.Committed(s, w, rollback, s.failures), None, W.venvs) == Consistent
      ensures Resolved(s).Tried().Tell(W.Committed(s, w, rollback, s.failures + 1), None, W.venvs) == Consistent
      ensures Resolved(s).Tried().Begins(w).Tell(W.Committed(s, w, rollback, s.failures + 1), None, W.venvs) == Consistent
    {
      FailedSoFar(trace);
    }

    lemma StartHolds(W: World, s: HaState, w: Version, rollback: Option<Version>)
      requires W.Judge(s.Calm()) == Consistent && s.Wanted() == Some(w) && w in W.venvs && W.schedule.None? && !s.Recovers(w)
      requires (W.plan.Some? ==> W.plan.value.stage != Renaming) && (s.change.Some? ==> s.change.value.to == w && s.change.value.applied)
      ensures W.Judge(W.Committed(s, w, rollback, s.failures)) == Consistent
      ensures W.Judge(W.Committed(s, w, rollback, s.failures + 1)) == Consistent
      ensures W.Running(W.Committed(s, w, rollback, s.failures + 1), w, false) == Consistent
    {
      W.CommitHolds(s, w, rollback, s.failures);
      W.CommitHolds(s, w, rollback, s.failures + 1);
      W.Started(s, w, rollback, s.failures + 1);
    }

    lemma FirstAgrees(W: World, s: HaState, w: Version)
      requires W.Judge(s) == Consistent && Tell(s, W.schedule, W.venvs) == Consistent && s.Wanted().None?
      ensures Tell(s.(desired := Some(w)), W.schedule, W.venvs + {w}) == Consistent && Tell(s, W.schedule, W.venvs + {w}) == Consistent
    {
    }

    // ----- while Home Assistant runs ----------------------------------------------------------

    /** Version ``v`` runs. ``settled``: its boot is no longer counted as a failed one. */
    ghost predicate Rests(s: HaState, v: Version, settled: bool) {
      && paid.None? && (last.Some? ==> s.Wanted() == last)
      && if settled then s.proven == Booted(v) else s.failures > 0 && s.Wanted().Some? && !s.Recovers(s.Wanted().value)
    }

    /** With no fallback half way, any schedule will do. */
    lemma RestingAgrees(s: HaState, r: Option<Schedule>, r': Option<Schedule>, venvs: set<Version>)
      requires Tell(s, r, venvs) == Consistent && paid.None?
      ensures Tell(s, r', venvs) == Consistent
    {
    }

    function Settles(s: HaState): History {
      this.(owed := if s.recovery.None? then None else owed, changes := 0, trace := trace + [Good])
    }

    lemma SettledAgrees(W: World, s: HaState, v: Version, settled: bool)
      requires W.Running(s, v, true) == Consistent && Tell(s, W.schedule, W.venvs) == Consistent && Rests(s, v, settled) && !settled
      ensures Settles(W.Settled(s, v)).Tell(W.Settled(s, v), W.schedule, W.venvs) == Consistent
      ensures Settles(W.Settled(s, v)).Rests(W.Settled(s, v), v, true)
    {
      FailedSoFar(trace);
    }

    lemma StoppedAgrees(s: HaState, r: Option<Schedule>, venvs: set<Version>)
      requires Tell(s, r, venvs) == Consistent && s.failures > 0
      ensures this.(trace := trace + [Stopped]).Tell(s.(failures := s.failures - 1), r, venvs) == Consistent
    {
      FailedSoFar(trace);
    }

    /** What the operator asks for, or a smoke test decides, ends what came before. */
    function Asked(fallback: Option<Recovery>): History {
      this.(owed := fallback, last := None, changes := 0)
    }

    lemma RequestAgrees(W: World, s: HaState, v: Version, to: Version, change: Option<Change>, settled: bool)
      requires Tell(s, W.schedule, W.venvs) == Consistent && Rests(s, v, settled)
      ensures Asked(None).Tell(W.Requested(s, to, change), W.schedule, W.venvs) == Consistent
      ensures Asked(None).Rests(W.Requested(s, to, change), v, settled)
    {
    }

    lemma SwitchBackAgrees(W: World, s: HaState, v: Version, back: Version, backup: string)
      requires Tell(s, W.schedule, W.venvs) == Consistent && Rests(s, v, true)
      requires s.last.Some? ==> s.last.value.at < W.now
      ensures var s' := W.SwitchedBack(s, v, back, backup);
              Asked(s'.recovery).Tell(s', W.schedule, W.venvs) == Consistent && Asked(s'.recovery).Rests(s', v, true)
    {
    }

    /** The crash counter takes the boot away from ``w``, or finds that the configuration cannot come back. */
    function FellBack(s: HaState, w: Version, s': HaState): History {
      this.(owed := if s.CarriesBack(w) && s'.Wanted() != Some(w) then s'.recovery else None, trace := trace + [Decided])
    }

    /** ha.json as a fallback leaves it; or, if it could not be prepared, as it stays. */
    function Fallen(s: HaState, w: Version, recovery: Option<Recovery>, fellBack: bool): HaState {
      s.(change := None, failures := 0, recovery := recovery, fallbackFrom := if fellBack then Some(w) else s.fallbackFrom,
         desired := if fellBack then s.FallbackTarget() else s.desired)
    }

    ghost predicate Falls(W: World, s: HaState, w: Version, recovery: Option<Recovery>, r: Option<Schedule>, fellBack: bool) {
      && W.Judge(s) == Consistent && Tell(s, W.schedule, W.venvs) == Consistent
      && s.Wanted() == Some(w) && s.Leaves(w, W.venvs) && (s.last.Some? ==> s.last.value.at < W.now)
      && (if s.CarriesBack(w) then
            && recovery.Some? && recovery.value.backup in W.backups && s.FallbackTarget().Some?
            && recovery.value == Recovery(recovery.value.backup, w, s.FallbackTarget().value, W.now)
            && r == if fellBack then Some(Schedule(recovery.value.backup, s.FallbackTarget(), true, false, None)) else W.schedule
          else
            fellBack && recovery == s.recovery && r == W.schedule)
    }

    lemma FallbackAgrees(W: World, s: HaState, w: Version, recovery: Option<Recovery>, r: Option<Schedule>, fellBack: bool)
      requires Falls(W, s, w, recovery, r, fellBack)
      ensures var s' := Fallen(s, w, recovery, fellBack); FellBack(s, w, s').Tell(s', r, W.venvs) == Consistent
    {
      FailedSoFar(trace);
    }

    lemma FallbackHolds(W: World, s: HaState, w: Version, recovery: Option<Recovery>, r: Option<Schedule>, fellBack: bool)
      requires Falls(W, s, w, recovery, r, fellBack)
      ensures W.(schedule := r).Judge(Fallen(s, w, recovery, fellBack)) == Consistent
    {
      var t := s.FallbackTarget().value;
      W.LeavingIsTracked(s, w);
      if !s.CarriesBack(w) {
        W.PlainFallback(s, w, t);
      } else if fellBack {
        W.FallbackWithConfiguration(s, w, t, recovery.value.backup);
      } else {
        W.FallbackNotScheduled(s, w, t, recovery.value.backup);
      }
    }
  }
}
