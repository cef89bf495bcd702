/** Importing one config entry with its store files, recorded in a durable intent, and the two resolvers of an
    interrupted import: the manager's Resolve, which goes by what Home Assistant has loaded, and the boot, which
    goes by what is on disk. Home Assistant may write its config entries to disk at any moment while it runs. */
module ImportTransaction {
  datatype Phase = Pending | Added | Commit | Rollback | Uncertain

  /** The intent lists each store with whether it had an original. */
  datatype Journal = NoJournal | Unreadable | Intent(phase: Phase, stores: map<string, bool>)

  /** A store file: what was here before, the imported one (as its entry keeps it up to date), or a cut copy. */
  datatype File = Here(text: string) | Imported | Cut

  type Files = map<string, File>

  datatype Pulse = Go | Cancelled | Killed

  /** Where an import, a resolution or a boot can fail or be ended. ``Turn``, ``AfterAside`` and the ``Before`` steps do
      nothing but wait. */
  datatype Step =
    | Start | WriteIntent | Turn(n: string) | Aside(n: string) | AfterAside(n: string) | CopyIn(n: string)
    | Align | WriteAdded | BeforeAdd | Add | Load
    | Save(removed: bool, attempt: nat) | ReadBack(removed: bool, attempt: nat)
    | WriteUncertain | BeforeRemoval | RemoveEntry | Unload | WriteRollback | BeforeUndo(n: string) | Restore(n: string)
    | WriteCommit | BeforeCommit(n: string) | MarkDone(n: string) | RemoveDone(n: string) | RemoveIntent
    | ReadEntries | Settle(n: string) | AfterSettle(n: string) | Orphan(n: string) | AfterIntent | RemoveLeftover(n: string) | AfterCleaning

  datatype Fate = Through | Fails | Cancels | Kills

  /** How each step of one call goes. */
  type Course = Step -> Fate

  function PulseOf(f: Fate): Pulse {
    match f
    case Cancels => Cancelled
    case Kills => Killed
    case _ => Go
  }

  ghost predicate Smooth(c: Course) {
    forall s :: c(s) == Through
  }

  /** Everything goes through but for ``s``, which fails. */
  ghost predicate FailsOnly(c: Course, s: Step) {
    c(s) == Fails && forall t :: t != s ==> c(t) == Through
  }

  ghost predicate Copies(c: Course) {
    forall n :: c(Turn(n)) == c(Aside(n)) == c(AfterAside(n)) == c(CopyIn(n)) == Through
  }

  ghost predicate Brings(c: Course) {
    Copies(c) && c(Align) == c(WriteAdded) == c(BeforeAdd) == c(Add) == Through
  }

  ghost predicate Undoes(c: Course) {
    c(RemoveIntent) == Through && forall n :: c(BeforeUndo(n)) == c(Restore(n)) == Through
  }

  predicate Confirms(c: Course, removed: bool) {
    c(Save(removed, 0)) == c(ReadBack(removed, 0)) == Through
  }

  ghost predicate Commits(c: Course) {
    forall n :: c(BeforeCommit(n)) == c(MarkDone(n)) == Through
  }

  ghost predicate Keeps(c: Course) {
    Confirms(c, false) && c(WriteCommit) == c(RemoveIntent) == Through && Commits(c)
  }

  predicate Unseen(c: Course) {
    c(Save(false, 0)) == Through && c(ReadBack(false, 0)) != Through
  }

  /** Verified on disk, and then something fails that the next boot can do as well. */
  ghost predicate FailsToCommit(c: Course) {
    Confirms(c, false) && (c(WriteCommit) != Through || (Commits(c) && c(RemoveIntent) != Through))
  }

  ghost predicate Withdraws(c: Course) {
    Undoes(c) && Confirms(c, true) && c(WriteUncertain) == c(BeforeRemoval) == c(RemoveEntry) == c(Unload) == c(WriteRollback) == Through
  }

  datatype ApplyOutcome = Done | Refused | Undone | Retained | Interrupted

  datatype ResolveOutcome = NothingPending | DroppedUnreadable | RefusedUnreadable | Unconfirmed | Unsettled | Kept | PutBack | Stopped

  /** The original of store ``n`` is in place, or can still be put back. */
  predicate Undoable(n: string, hadOriginal: bool, stores: Files, aside: Files, before: Files) {
    if hadOriginal then
      n in before && (if n in aside then aside[n] == before[n] else n in stores && stores[n] == before[n])
    else
      n !in before && n !in aside && (n in stores ==> stores[n] == Imported || stores[n] == Cut)
  }

  ghost predicate AllUndoable(items: map<string, bool>, stores: Files, aside: Files, before: Files) {
    forall n :: n in items ==> Undoable(n, items[n], stores, aside, before)
  }

  ghost predicate AllImported(items: map<string, bool>, stores: Files) {
    forall n :: n in items ==> n in stores && stores[n] == Imported
  }

  ghost predicate Untouched(items: map<string, bool>, stores: Files, aside: Files, before: Files) {
    forall n :: n !in items ==> n !in aside && (n in stores <==> n in before) && (n in stores ==> stores[n] == before[n])
  }

  /** Whether an undo that goes by these lists reaches every store that is not as it was. */
  ghost predicate Tracked(moved: set<string>, attempted: set<string>, stores: Files, aside: Files, before: Files) {
    && moved <= before.Keys
    && aside.Keys <= moved
    && (forall n :: n in before && n !in moved ==> n in stores && stores[n] == before[n])
    && stores.Keys <= before.Keys + attempted
    && attempted - moved !! before.Keys
  }

  function Orphans(orphans: map<string, seq<File>>, n: string): seq<File> {
    if n in orphans then orphans[n] else []
  }

  /** Every original set aside is still set aside, or kept as the newest orphan of its store. */
  ghost predicate Orphaned(aside0: Files, aside: Files, orphans0: map<string, seq<File>>, orphans: map<string, seq<File>>) {
    forall n :: if n in aside then n in aside0 && aside[n] == aside0[n] && Orphans(orphans, n) == Orphans(orphans0, n)
                else Orphans(orphans, n) == Orphans(orphans0, n) + (if n in aside0 then [aside0[n]] else [])
  }

  predicate AsBefore(n: string, stores: Files, aside: Files, before: Files) {
    n !in aside && (n in stores <==> n in before) && (n in stores ==> stores[n] == before[n])
  }

  lemma AllAsBefore(stores: Files, aside: Files, before: Files)
    requires forall n :: AsBefore(n, stores, aside, before)
    ensures stores == before && aside == map[]
  {
    forall n ensures (n in stores <==> n in before) && (n in stores ==> stores[n] == before[n]) && n !in aside {
      assert AsBefore(n, stores, aside, before);
    }
  }

  /** What an import and its withdrawal need, of a course in which nothing fails, or only one step. */
  lemma CourseMeans(c: Course)
    ensures Smooth(c) ==> Brings(c) && c(Load) == Through && Keeps(c) && c(Start) == c(WriteIntent) == Through
    ensures FailsOnly(c, Align) || FailsOnly(c, WriteAdded) || FailsOnly(c, Add) || FailsOnly(c, Load) || FailsOnly(c, ReadBack(false, 0)) ==>
              TakenBack(c) && c(Start) == c(WriteIntent) == Through
    ensures FailsOnly(c, WriteCommit) || FailsOnly(c, RemoveIntent) ==>
              Brings(c) && c(Load) == Through && FailsToCommit(c) && c(Start) == c(WriteIntent) == Through
    ensures FailsOnly(c, WriteIntent) ==> c(WriteIntent) != Through && c(Start) == Through
  {
    hide FailsOnly, TakenBack, Brings, FailsToCommit, Keeps, Smooth;
    if Smooth(c) { SmoothKeeps(c); }
    if FailsOnly(c, Align) { OneIsTakenBack(c, Align); }
    if FailsOnly(c, WriteAdded) { OneIsTakenBack(c, WriteAdded); }
    if FailsOnly(c, Add) { OneIsTakenBack(c, Add); }
    if FailsOnly(c, Load) { OneIsTakenBack(c, Load); }
    if FailsOnly(c, ReadBack(false, 0)) { OneIsTakenBack(c, ReadBack(false, 0)); }
    if FailsOnly(c, WriteCommit) { OneIsKept(c, WriteCommit); }
    if FailsOnly(c, RemoveIntent) { OneIsKept(c, RemoveIntent); }
    if FailsOnly(c, WriteIntent) { NoneBegins(c); }
  }

  ghost predicate TakenBack(c: Course) {
    Copies(c) && c(BeforeAdd) == Through && Withdraws(c) && (!Brings(c) || c(Load) != Through || Unseen(c))
  }

  lemma SmoothKeeps(c: Course)
    requires Smooth(c)
    ensures Brings(c) && c(Load) == Through && Keeps(c) && c(Start) == c(WriteIntent) == Through
  {
  }

  lemma OneIsTakenBack(c: Course, s: Step)
    requires FailsOnly(c, s) && (s.Align? || s.WriteAdded? || s.Add? || s.Load? || s == ReadBack(false, 0))
    ensures TakenBack(c) && c(Start) == c(WriteIntent) == Through
  {
    OthersStillWithdraw(c, s);
    OthersStillCopy(c, s);
    hide Withdraws, Copies;
  }

  lemma OthersStillCopy(c: Course, s: Step)
    requires FailsOnly(c, s) && (s.Align? || s.WriteAdded? || s.Add? || s.Load? || s == ReadBack(false, 0))
    ensures Copies(c)
  {
  }

  lemma OthersStillWithdraw(c: Course, s: Step)
    requires FailsOnly(c, s) && (s.Align? || s.WriteAdded? || s.Add? || s.Load? || s == ReadBack(false, 0))
    ensures Withdraws(c)
  {
  }

  lemma OneIsKept(c: Course, s: Step)
    requires FailsOnly(c, s) && (s.WriteCommit? || s.RemoveIntent?)
    ensures Brings(c) && c(Load) == Through && FailsToCommit(c) && c(Start) == c(WriteIntent) == Through
  {
  }

  lemma NoneBegins(c: Course)
    requires FailsOnly(c, WriteIntent)
    ensures c(WriteIntent) != Through && c(Start) == Through
  {
  }

  lemma SameStores(items: map<string, bool>, listed: set<string>, stores: Files)
    requires items.Keys == listed
    ensures AllImported(items, stores) <==> AllImported(map n | n in listed :: true, stores)
  {
  }

  class Volume {
    var stores: Files
    var aside: Files               // <store>.pre-import
    var done: set<string>          // <store>.pre-import.done
    var orphans: map<string, seq<File>>  // <store>.pre-import.orphan, .orphan.1, ...
    var journal: Journal
    var source: bool               // import-extracted
    var onDisk: bool               // the entry is in core.config_entries on disk
    var inMemory: bool             // ... in the Home Assistant that runs
    var running: bool

    ghost var before: Files        // the stores when the pending import began

    constructor (stores: Files)
      ensures Consistent() && journal == NoJournal && this.stores == stores && !onDisk && !running
    {
      this.stores, aside, done, orphans, journal, source := stores, map[], {}, map[], NoJournal, false;
      onDisk, inMemory, running := false, false, false;
      before := stores;
    }

    ghost predicate Consistent()
      reads this
    {
      && (!running ==> !inMemory)
      && match journal
         case NoJournal => aside == map[]
         case Unreadable => true
         case Intent(_, items) => if !source then aside == map[] else
           && Untouched(items, stores, aside, before)
           // an entry that Home Assistant has, or may load, finds its imported stores
           && (onDisk || inMemory ==> AllImported(items, stores))
           // and unless it is both loaded and on disk, everything can still be undone
           && (!(onDisk && (running ==> inMemory)) ==> AllUndoable(items, stores, aside, before))
    }

    /** The intent exists only while the source it was made from does. */
    ghost predicate SourceKept()
      reads this
    {
      journal.Intent? ==> source
    }

    /** All or nothing: what the volume holds once the import of ``items`` is settled. */
    ghost predicate Settled(items: map<string, bool>)
      reads this
    {
      journal == NoJournal && aside == map[] && (if onDisk then AllImported(items, stores) else stores == before)
    }

    // ----- Home Assistant and the world ------------------------------------------------------

    /** Time passes while Home Assistant runs: it may save its config entries, the coroutine may be cancelled, the
        process may be killed. */
    method Tick(f: Fate, write: bool) returns (p: Pulse)
      requires Consistent() && running
      modifies this`onDisk, this`inMemory, this`running
      ensures Consistent() && p == PulseOf(f)
      ensures p != Killed ==> running && inMemory == old(inMemory) && (onDisk == old(onDisk) || onDisk == inMemory)
      ensures p == Killed ==> !running && !inMemory && (onDisk == old(onDisk) || onDisk == old(inMemory))
      ensures write && f == Through ==> onDisk == old(inMemory)
    {
      var saves: bool := *;
      if saves || (write && f == Through) { onDisk := inMemory; }
      p := PulseOf(f);
      if p == Killed { running, inMemory := false, false; }
    }

    /** Save the config entries now and read them back, at most three times. */
    method SaveConfigEntries(removed: bool, c: Course) returns (p: Pulse, confirmed: bool)
      requires Consistent() && running
      modifies this`onDisk, this`inMemory, this`running
      ensures Consistent()
      ensures p != Killed ==> running && inMemory == old(inMemory) && (onDisk == old(onDisk) || onDisk == inMemory)
      ensures p == Killed ==> !running && !inMemory && (onDisk == old(onDisk) || onDisk == old(inMemory))
      ensures p == Go && confirmed ==> onDisk == inMemory == !removed
      ensures Confirms(c, removed) && old(inMemory) == !removed ==> p == Go && confirmed
      ensures c(ReadBack(removed, 0)) != Through ==> !confirmed
      ensures c(Save(removed, 0)) == Through && c(ReadBack(removed, 0)) != Through ==> p == Go
    {
      confirmed := false;
      for attempt := 0 to 3
        invariant Consistent() && running && inMemory == old(inMemory) && (onDisk == old(onDisk) || onDisk == inMemory)
        invariant attempt > 0 ==> inMemory != removed && c(ReadBack(removed, 0)) == Through && c(Save(removed, 0)) != Through
      {
        p := Tick(c(Save(removed, attempt)), true);  // the write, which may fail without saying so
        if p != Go { return; }
        if inMemory == removed { return; }
        if c(ReadBack(removed, attempt)) != Through { return; }
        if onDisk == !removed {
          confirmed := true;
          return;
        }
      }
      p := Go;
    }

    // ----- the import -----------------------------------------------------------------------

    method Begin(listed: set<string>, c: Course) returns (begun: bool)
      requires Consistent() && running && !inMemory && source
      modifies this`journal, this`before
      ensures Consistent()
      ensures begun <==> old(journal) == NoJournal && !onDisk && c(WriteIntent) == Through
      ensures !begun ==> journal == old(journal) && before == old(before)
      ensures begun ==> !onDisk && old(journal) == NoJournal && before == stores
      ensures begun ==> journal.Intent? && journal.phase == Pending && journal.stores.Keys == listed
      ensures begun ==> AllUndoable(journal.stores, stores, aside, before)
    {
      if journal != NoJournal || onDisk { return false; }
      var here := stores;
      begun := c(WriteIntent) == Through;
      if begun {
        journal, before := Intent(Pending, map n | n in listed :: n in here), stores;
      }
    }

    ghost predicate Reversible(moved: set<string>, attempted: set<string>)
      reads this
    {
      && Consistent() && journal.Intent? && source
      && AllUndoable(journal.stores, stores, aside, before)
      && Tracked(moved, attempted, stores, aside, before)
    }

    /** Whether nothing of this import has been loaded yet, and an undo by these lists is complete. */
    ghost predicate Undecided(moved: set<string>, attempted: set<string>)
      reads this
    {
      Reversible(moved, attempted) && !inMemory && !onDisk
    }

    /** Everything but store ``n`` is as it was. */
    twostate predicate OnlyStore(n: string)
      reads this
    {
      forall m :: m != n ==> (m in aside <==> m in old(aside)) && (m in stores <==> m in old(stores)) && (m in stores ==> stores[m] == old(stores)[m])
    }

    /** Rename an original to .pre-import; ``n`` is already on the list of moved stores. */
    method SetAside(n: string, moved: set<string>, attempted: set<string>, c: Course) returns (ok: bool)
      requires Undecided(moved, attempted) && running
      requires n in moved && n in journal.stores && n in stores && stores[n] == before[n] && n !in aside
      modifies this`stores, this`aside
      ensures Undecided(moved, attempted) && OnlyStore(n) && ok == (c(Aside(n)) == Through)
      ensures if ok then n !in stores && n in aside else n in stores && n !in aside
    {
      ok := c(Aside(n)) == Through;
      if ok { aside, stores := aside[n := stores[n]], stores - {n}; }
    }

    /** Copy an imported store in; ``n`` is already on the list of attempted stores. */
    method CopyFile(n: string, moved: set<string>, attempted: set<string>, c: Course) returns (p: Pulse, ok: bool)
      requires Undecided(moved, attempted) && running
      requires n in attempted && n in journal.stores && n !in stores
      modifies this`stores, this`onDisk, this`inMemory, this`running
      ensures Undecided(moved, attempted) && OnlyStore(n) && (n in aside <==> n in old(aside))
      ensures p != Killed ==> running
      ensures p == PulseOf(c(CopyIn(n))) && ok == (c(CopyIn(n)) == Through)
      ensures p == Go && ok ==> n in stores && stores[n] == Imported
    {
      var truncated: bool := *;
      if truncated { stores := stores[n := Cut]; }
      p := Tick(c(CopyIn(n)), false);
      ok := c(CopyIn(n)) == Through;
      if p == Go && ok { stores := stores[n := Imported]; }
    }

    /** One store: its original aside, then the copy. ``moved`` and ``attempted`` name it before the step
        they announce. */
    method CopyOne(n: string, moved: set<string>, attempted: set<string>, c: Course)
      returns (p: Pulse, ok: bool, moved': set<string>, attempted': set<string>)
      requires Undecided(moved, attempted) && running
      requires n in journal.stores && (n in stores <==> n in before) && n !in aside && n !in moved + attempted
      modifies this`stores, this`aside, this`onDisk, this`inMemory, this`running
      ensures moved <= moved' <= moved + {n} && attempted <= attempted' <= attempted + {n}
      ensures Undecided(moved', attempted') && OnlyStore(n)
      ensures p != Killed ==> running
      ensures p == Go && ok ==> n in stores && stores[n] == Imported && (n in moved' <==> n in aside) && n in attempted'
      ensures Copies(c) ==> p == Go && ok
    {
      moved', attempted', ok, p := moved, attempted, true, Go;
      if n in stores {
        moved' := moved + {n};
        ok := SetAside(n, moved', attempted, c);
        if ok { p := Tick(c(AfterAside(n)), false); }
      }
      if ok && p == Go {
        attempted' := attempted + {n};
        p, ok := CopyFile(n, moved', attempted', c);
      }
    }

    method Copy(c: Course) returns (p: Pulse, ok: bool, moved: set<string>, attempted: set<string>)
      requires Undecided({}, {}) && running
      requires stores == before && aside == map[]
      modifies this`stores, this`aside, this`onDisk, this`inMemory, this`running
      ensures Undecided(moved, attempted)
      ensures p != Killed ==> running
      ensures p == Go && ok ==> AllImported(journal.stores, stores) && Complete(moved, attempted)
      ensures Copies(c) ==> p == Go && ok
    {
      hide Untouched, Undoable, AllUndoable;
      moved, attempted, ok, p := {}, {}, true, Go;
      var rest := journal.stores.Keys;
      while rest != {}
        invariant Undecided(moved, attempted) && running && rest <= journal.stores.Keys && p == Go && ok
        invariant moved + attempted !! rest && aside.Keys !! rest
        invariant forall n :: n in journal.stores && n !in rest ==> n in stores && stores[n] == Imported
        invariant forall n :: n in rest ==> (n in stores <==> n in before)
        invariant Complete(moved, attempted)
      {
        var n :| n in rest;
        p := Tick(c(Turn(n)), false);
        if p != Go { return; }
        if n in aside { ok := false; return; }
        p, ok, moved, attempted := CopyOne(n, moved, attempted, c);
        if p != Go || !ok { return; }
        rest := rest - {n};
      }
    }

    /** The lists name no store that has nothing to undo. */
    predicate Complete(moved: set<string>, attempted: set<string>)
      reads this`stores, this`aside
    {
      moved <= aside.Keys && attempted - moved <= stores.Keys
    }

    /** Undo one store: the original over whatever is there, or the new file away. */
    method UndoOne(f: string, moved: set<string>, attempted: set<string>, c: Course) returns (ok: bool)
      requires Undecided(moved, attempted) && running && f in moved + attempted
      modifies this`stores, this`aside
      ensures Undecided(moved, attempted) && OnlyStore(f)
      ensures ok ==> AsBefore(f, stores, aside, before)
      ensures ok <==> c(Restore(f)) == Through && f in old(if f in moved then aside else stores)
    {
      ok := c(Restore(f)) == Through;
      if !ok { return; }
      ok := f in if f in moved then aside else stores;
      if ok {
        if f in moved {
          assert Undoable(f, journal.stores[f], stores, aside, before);
          stores, aside := stores[f := aside[f]], aside - {f};
        } else {
          stores := stores - {f};
        }
      }
    }

    /** Put back what ``moved`` and ``attempted`` name, each store once. */
    method Undo(moved: set<string>, attempted: set<string>, c: Course) returns (p: Pulse, restored: bool)
      requires Undecided(moved, attempted) && running
      modifies this`stores, this`aside, this`onDisk, this`inMemory, this`running
      ensures Undecided(moved, attempted)
      ensures p != Killed ==> running
      ensures p == Go && restored ==> stores == before && aside == map[]
      ensures Undoes(c) && old(Complete(moved, attempted)) ==> p == Go && restored
    {
      var todo := moved + attempted;
      restored, p := true, Go;
      while todo != {}
        invariant Undecided(moved, attempted) && running && todo <= moved + attempted && p == Go
        invariant restored ==> forall n :: n !in todo ==> AsBefore(n, stores, aside, before)
        invariant Undoes(c) && old(Complete(moved, attempted)) ==> restored && forall n :: n in todo ==> n in if n in moved then aside else stores
      {
        var f :| f in todo;
        p := Tick(c(BeforeUndo(f)), false);
        if p != Go { return; }
        var ok := UndoOne(f, moved, attempted, c);
        restored, todo := restored && ok, todo - {f};
      }
      if restored {
        AllAsBefore(stores, aside, before);
      }
    }

    /** Mark the originals done and remove them. False while one is still there under its old name. */
    method CommitStores(c: Course) returns (p: Pulse, clean: bool)
      requires Consistent() && running && journal.Intent? && source && inMemory && onDisk
      modifies this`aside, this`done, this`onDisk, this`inMemory, this`running
      ensures Consistent() && onDisk
      ensures p != Killed ==> running && inMemory
      ensures p == Go && clean ==> aside == map[]
      ensures Commits(c) ==> p == Go && clean
    {
      var rest := aside.Keys;
      p := Go;
      while rest != {}
        invariant Consistent() && running && inMemory && onDisk && rest <= aside.Keys && p == Go
        invariant Commits(c) ==> rest == aside.Keys
      {
        var n :| n in rest;
        p := Tick(c(BeforeCommit(n)), false);
        if p != Go { clean := false; return; }
        rest := rest - {n};
        var marked, removed := c(MarkDone(n)) == Through, c(RemoveDone(n)) == Through;
        if marked {
          aside := aside - {n};
          done := if removed then done else done + {n};
        } else if removed {
          aside := aside - {n};
        }
      }
      clean := aside == map[];
    }

    /** Remove the intent: only of an import that is settled. */
    method Finish(c: Course) returns (finished: bool)
      requires Consistent() && journal.Intent? && source && aside == map[]
      requires onDisk == inMemory && (onDisk || stores == before)
      modifies this`journal
      ensures Consistent()
      ensures finished ==> Settled(old(journal).stores)
      ensures !finished ==> journal == old(journal)
      ensures finished <==> c(RemoveIntent) == Through
    {
      finished := c(RemoveIntent) == Through;
      if finished { journal := NoJournal; }
    }

    method WritePhase(phase: Phase, f: Fate) returns (ok: bool)
      requires Consistent() && journal.Intent? && source
      modifies this`journal
      ensures Consistent() && journal.Intent? && ok == (f == Through)
      ensures journal == if ok then old(journal).(phase := phase) else old(journal)
    {
      ok := f == Through;
      if ok { journal := journal.(phase := phase); }
    }

    /** From the intent to the entry in memory. Not ok: something raised, and the entry is not there. */
    method Bring(c: Course) returns (p: Pulse, ok: bool, moved: set<string>, attempted: set<string>)
      requires Undecided({}, {}) && running && stores == before && aside == map[]
      modifies this`stores, this`aside, this`onDisk, this`inMemory, this`running, this`journal
      ensures Consistent() && journal.Intent? && journal.stores == old(journal).stores
      ensures p != Killed ==> running
      ensures p == Go && ok ==> inMemory && Reversible(moved, attempted)
      ensures p == Go && !ok ==> Undecided(moved, attempted)
      ensures p == Go && ok ==> Complete(moved, attempted) && journal.phase == Added
      ensures Brings(c) ==> p == Go && ok
      ensures Copies(c) && c(BeforeAdd) == Through ==> p == Go && Complete(moved, attempted)
      ensures p == Go && ok ==> c(Align) == c(WriteAdded) == c(Add) == Through
    {
      p, ok, moved, attempted := Copy(c);
      if p != Go || !ok { return; }
      ok := c(Align) == Through;
      if !ok { return; }
      ok := WritePhase(Added, c(WriteAdded));
      if !ok { return; }
      p := Tick(c(BeforeAdd), false);
      if p != Go { return; }
      ok := c(Add) == Through;
      if ok { inMemory := true; }
    }

    method UndoAndFinish(moved: set<string>, attempted: set<string>, c: Course) returns (r: ApplyOutcome)
      requires Undecided(moved, attempted) && running
      modifies this`stores, this`aside, this`onDisk, this`inMemory, this`running, this`journal
      ensures Consistent() && source && r in {Undone, Retained, Interrupted}
      ensures r == Undone ==> running && !inMemory && !onDisk && stores == before && Settled(old(journal).stores)
      ensures r == Retained ==> running && journal == old(journal)
      ensures journal == NoJournal ==> r == Undone
      ensures journal != Unreadable
      ensures journal.Intent? ==> journal.stores == old(journal).stores
      ensures Undoes(c) && old(Complete(moved, attempted)) ==> r == Undone
    {
      var p, restored := Undo(moved, attempted, c);
      if p != Go { return Interrupted; }
      if !restored { return Retained; }
      var finished := Finish(c);
      r := if finished then Undone else Retained;
    }

    /** The entry is taken out again, the removal confirmed on disk, and only then the stores put back. */
    method Withdraw(moved: set<string>, attempted: set<string>, failedSave: bool, c: Course) returns (r: ApplyOutcome)
      requires Reversible(moved, attempted) && running && inMemory
      modifies this`stores, this`aside, this`onDisk, this`inMemory, this`running, this`journal
      ensures Consistent() && source && r in {Undone, Retained, Interrupted}
      ensures r == Undone ==> running && !inMemory && !onDisk && stores == before && Settled(old(journal).stores)
      ensures r == Retained ==> running && journal.Intent?
      ensures journal == NoJournal ==> r == Undone
      ensures journal != Unreadable
      ensures journal.Intent? ==> journal.stores == old(journal).stores
      ensures Withdraws(c) && old(Complete(moved, attempted)) ==> r == Undone
    {
      if failedSave {
        var written := WritePhase(Uncertain, c(WriteUncertain));
        if !written { return Retained; }
      }
      var p := Tick(c(BeforeRemoval), false);
      if p != Go { return Interrupted; }
      if c(RemoveEntry) != Through { return Retained; }
      inMemory := false;
      if failedSave && c(Unload) != Through { return Retained; }
      var confirmed;
      p, confirmed := SaveConfigEntries(true, c);
      if p != Go { return Interrupted; }
      if !confirmed { return Retained; }
      if failedSave {
        var written := WritePhase(Rollback, c(WriteRollback));
        if !written { return Retained; }
      }
      r := UndoAndFinish(moved, attempted, c);
    }

    /** The entry is not loaded, its source is there, and no other import is unsettled. */
    predicate MayBegin()
      reads this`inMemory, this`source, this`journal
    {
      !inMemory && source && journal == NoJournal
    }

    /** Import one entry with these stores. ``Retained``: the intent stays for Resolve or the next boot. */
    method Import(listed: set<string>, cleanup: bool, c: Course) returns (r: ApplyOutcome)
      requires Consistent() && SourceKept() && running
      modifies this
      ensures Consistent() && SourceKept()
      ensures old(journal) == NoJournal ==> journal != Unreadable
      ensures old(journal) == NoJournal && journal.Intent? ==> before == old(stores) && journal.stores.Keys == listed
      ensures old(journal) == NoJournal && journal == NoJournal ==>
        || (stores == old(stores) && (onDisk || inMemory ==> old(onDisk || inMemory)))
        || (onDisk && (running ==> inMemory) && AllImported(map n | n in listed :: true, stores))
      ensures old(journal) != NoJournal ==> r in {Refused, Interrupted} && journal == old(journal) && stores == old(stores) && before == old(before)
      ensures r == Refused ==> journal == old(journal) && stores == old(stores)
      ensures r == Done ==> running && inMemory && onDisk && old(journal) == NoJournal && Settled(map n | n in listed :: true)
      ensures r == Undone ==> running && !inMemory && !onDisk && stores == old(stores) && source && journal == old(journal) == NoJournal
      ensures r == Retained ==> running && journal.Intent? && journal.stores.Keys == listed
      // the source goes with an import that came through, if that was asked for, and with no other
      ensures source == if r == Done && cleanup then false else old(source)
      // an import that may begin and that nothing stops comes through; it is taken back only after a failure
      ensures old(MayBegin()) && Smooth(c) ==> r == Done
      ensures r == Undone ==> !Brings(c) || c(Load) != Through || !Confirms(c, false)
      ensures old(MayBegin()) && (FailsOnly(c, Align) || FailsOnly(c, WriteAdded) || FailsOnly(c, Add) || FailsOnly(c, Load) || FailsOnly(c, ReadBack(false, 0)))
              ==> r == Undone
      ensures old(MayBegin()) && (FailsOnly(c, WriteCommit) || FailsOnly(c, RemoveIntent)) ==> r == Retained && onDisk && inMemory
      ensures FailsOnly(c, WriteIntent) || !old(MayBegin()) ==> r in {Refused, Interrupted}
    {
      CourseMeans(c);
      hide Untouched, Tracked, Undoable, AllUndoable, Smooth, FailsOnly, Brings, Copies, Keeps, Confirms, TakenBack, FailsToCommit;
      if inMemory || !source { return Refused; }
      var p := Tick(c(Start), true);
      if p != Go { return Interrupted; }
      var begun := Begin(listed, c);
      if !begun { return Refused; }
      ghost var items := journal.stores;
      r := Carry(c);
      SameStores(items, listed, stores);
      hide AllImported;
      if r == Done && cleanup { Clear(); }
    }

    /** An import from its intent on. */
    method Carry(c: Course) returns (r: ApplyOutcome)
      requires Undecided({}, {}) && running && stores == before && aside == map[]
      modifies this`stores, this`aside, this`done, this`onDisk, this`inMemory, this`running, this`journal
      ensures Ends(r, old(journal).stores)
      ensures Brings(c) && c(Load) == Through && Keeps(c) ==> r == Done
      ensures Brings(c) && c(Load) == Through && Confirms(c, false) ==> r != Undone
      ensures TakenBack(c) ==> r == Undone
      ensures Brings(c) && c(Load) == Through && FailsToCommit(c) ==> r == Retained && onDisk && inMemory
    {
      var p, ok, moved, attempted := Bring(c);
      if p != Go { return Interrupted; }
      if !ok {
        r := UndoAndFinish(moved, attempted, c);
      } else if c(Load) != Through {
        r := Withdraw(moved, attempted, false, c);
      } else {
        r := Keep(moved, attempted, c);
      }
    }

    /** How an import of these stores can end once its intent was written. */
    ghost predicate Ends(r: ApplyOutcome, items: map<string, bool>)
      reads this
    {
      && Consistent() && source && journal != Unreadable && r != Refused
      && (journal.Intent? ==> journal.stores == items)
      && (r == Done ==> running && inMemory && onDisk && Settled(items))
      && (r == Undone ==> running && !inMemory && !onDisk && Settled(items))
      && (r == Retained ==> running && journal.Intent?)
      && (journal == NoJournal ==> r in {Done, Undone})
    }

    /** The entry is loaded: on disk it stays, with its stores; if the disk cannot be made to say that, it is taken out again. */
    method Keep(moved: set<string>, attempted: set<string>, c: Course) returns (r: ApplyOutcome)
      requires Reversible(moved, attempted) && running && inMemory
      modifies this`stores, this`aside, this`done, this`onDisk, this`inMemory, this`running, this`journal
      ensures Ends(r, old(journal).stores)
      ensures Keeps(c) ==> r == Done
      ensures Confirms(c, false) ==> r != Undone
      ensures Unseen(c) && Withdraws(c) && old(Complete(moved, attempted)) ==> r == Undone
      ensures FailsToCommit(c) ==> r == Retained && onDisk && inMemory
    {
      var p, confirmed := SaveConfigEntries(false, c);
      if p != Go { return Interrupted; }
      if !confirmed {
        r := Withdraw(moved, attempted, true, c);
        return;
      }
      var ok := WritePhase(Commit, c(WriteCommit));
      if !ok { return Retained; }
      p, ok := CommitStores(c);
      if p != Go { return Interrupted; }
      if !ok { return Retained; }
      ok := Finish(c);
      r := if ok then Done else Retained;
    }

    /** Drop the import source, never under an intent that still needs it. */
    method Clear()
      requires Consistent()
      modifies this`source
      ensures Consistent() && (old(SourceKept()) ==> SourceKept()) && source == (old(source) && journal != NoJournal)
    {
      if journal != NoJournal { return; }
      source := false;
    }

    // ----- the two resolvers ----------------------------------------------------------------

    /** One store of an intent, one way or the other: the imported store stays and what was set aside goes, or
        the original comes back. */
    method SettleOne(n: string, keep: bool, f: Fate) returns (ok: bool)
      requires Consistent() && journal.Intent? && source && n in journal.stores
      requires if keep then onDisk && (running ==> inMemory) else !onDisk && !inMemory
      modifies this`stores, this`aside, this`done
      ensures Consistent() && OnlyStore(n)
      ensures keep ==> stores == old(stores)
      ensures ok ==> n !in aside && (!keep ==> AsBefore(n, stores, aside, before))
      ensures ok == (f == Through)
    {
      ok := f == Through;
      if keep {
        var first: bool := *;
        if ok || first { aside := aside - {n}; }
        if ok { done := done - {n}; }
      } else if ok {
        assert Undoable(n, journal.stores[n], stores, aside, before);
        if n in aside {
          stores, aside := stores[n := aside[n]], aside - {n};
        } else if !journal.stores[n] && n in stores {
          stores := stores - {n};
        }
      }
    }

    /** At boot, Home Assistant not running: the entry on disk decides. ``back`` and ``missing`` are what the
        message reports of a kept import. */
    method Recover(c: Course) returns (r: Recovery, back: set<string>, missing: set<string>)
      requires Consistent() && !running
      modifies this`stores, this`aside, this`done, this`orphans, this`journal
      ensures Consistent() && (r == Recovered ==> journal == NoJournal) && (journal == NoJournal || journal == old(journal))
      ensures r == Recovered && old(journal).Intent? && source ==> Settled(old(journal).stores)
      ensures old(journal).Intent? && journal == NoJournal && source ==> Settled(old(journal).stores)
      // a store reported as possibly put back is the imported one, and none is ever reported missing
      ensures old(journal).Intent? && source ==> missing == {} && forall n :: n in back ==> n in stores && stores[n] == Imported
      // a stale or unreadable record never costs a store, nor an original that was set aside
      ensures old(journal) == NoJournal || (old(journal).Intent? && !source) || old(journal) == Unreadable ==> stores == old(stores)
      ensures old(journal) == Unreadable ==> Orphaned(old(aside), aside, old(orphans), orphans)
      ensures SourceKept() || !old(SourceKept())
      ensures Smooth(c) ==> r == Recovered
    {
      back, missing := {}, {};
      if journal == NoJournal { return Recovered, back, missing; }
      if journal == Unreadable {
        var kept := KeepAsOrphans(c);
        if !kept { return NotRecovered, back, missing; }
      } else if source {
        if c(ReadEntries) != Through { return NotRecovered, back, missing; }
        var settled;
        settled, back, missing := RecoverStores(c);
        if !settled { return NotRecovered, back, missing; }
      }
      if c(RemoveIntent) != Through { return NotRecovered, back, missing; }
      journal := NoJournal;
      r := if c(AfterIntent) == Kills then NotRecovered else Recovered;
    }

    method RecoverStores(c: Course) returns (settled: bool, back: set<string>, missing: set<string>)
      requires Consistent() && !running && journal.Intent? && source
      modifies this`stores, this`aside, this`done
      ensures Consistent()
      ensures settled ==> aside == map[] && (if onDisk then AllImported(journal.stores, stores) else stores == before)
      ensures missing == {} && forall n :: n in back ==> n in stores && stores[n] == Imported
      // of a verified commit nothing is reported
      ensures journal.phase == Commit ==> back == {}
      ensures Smooth(c) ==> settled
    {
      back, missing := {}, {};
      var keep, rest := onDisk, journal.stores.Keys;
      while rest != {}
        invariant Consistent() && rest <= journal.stores.Keys && missing == {} && (keep || back == {})
        invariant keep ==> AllImported(journal.stores, stores)
        invariant journal.phase == Commit ==> back == {}
        invariant back <= journal.stores.Keys && forall n :: n in back ==> n in stores && stores[n] == Imported
        invariant forall n :: n !in rest ==> n !in aside
        invariant !keep ==> forall n :: n !in rest ==> AsBefore(n, stores, aside, before)
      {
        var n :| n in rest;
        if keep && journal.stores[n] && journal.phase != Commit && n !in aside && n !in done {
          back := back + {n};
        }
        var ok := SettleOne(n, keep, c(Settle(n)));
        if !ok { return false, back, missing; }
        if keep && n !in stores { missing := missing + {n}; }
        rest := rest - {n};
        if c(AfterSettle(n)) == Kills { return false, back, missing; }
      }
      settled := true;
      if !keep { AllAsBefore(stores, aside, before); }
    }

    /** Without a readable intent no original may be put back or lost: each becomes an orphan of its store. */
    method KeepAsOrphans(c: Course) returns (kept: bool)
      requires Consistent() && !running && journal == Unreadable
      modifies this`aside, this`orphans
      ensures Consistent() && (kept ==> aside == map[])
      ensures Orphaned(old(aside), aside, old(orphans), orphans)
      ensures Smooth(c) ==> kept
    {
      kept := true;
      while aside.Keys != {}
        invariant kept && Orphaned(old(aside), aside, old(orphans), orphans)
        decreases aside.Keys
      {
        var n :| n in aside;
        kept := c(Orphan(n)) == Through;
        if !kept { return; }
        orphans, aside := orphans[n := Orphans(orphans, n) + [aside[n]]], aside - {n};
      }
    }

    /** Under Home Assistant, once disk and memory agree: every store is kept, or every one is put back. */
    method SettleAll(present: bool, c: Course) returns (r: ResolveOutcome)
      requires Consistent() && running && journal.Intent? && source && onDisk == inMemory == present
      modifies this`stores, this`aside, this`done, this`journal, this`onDisk, this`inMemory, this`running
      ensures Consistent() && onDisk == present && (running ==> inMemory == present)
      ensures if r == (if present then Kept else PutBack) then running && Settled(old(journal).stores)
              else r in {Stopped, Unsettled} && journal == old(journal)
      ensures Smooth(c) ==> r == if present then Kept else PutBack
    {
      var rest := journal.stores.Keys;
      assert forall n :: n !in rest ==> n !in aside && AsBefore(n, stores, aside, before);
      hide Untouched, Undoable, AllUndoable;
      while rest != {}
        invariant journal == old(journal) && source && Consistent() && running && rest <= journal.stores.Keys
        invariant onDisk == inMemory == present
        invariant forall n :: n !in rest ==> n !in aside
        invariant !present ==> forall n :: n !in rest ==> AsBefore(n, stores, aside, before)
      {
        var n :| n in rest;
        var p := Tick(c(AfterSettle(n)), false);  // the settling runs in a thread: only a kill ends it
        if p == Killed { return Stopped; }
        var ok := SettleOne(n, present, c(Settle(n)));
        if !ok { return Unsettled; }
        rest := rest - {n};
      }
      if !present { AllAsBefore(stores, aside, before); }
      var finished := Finish(c);
      r := if !finished then Unsettled else if present then Kept else PutBack;
    }

    /** Resolve, while Home Assistant runs: the entry it has loaded decides, once the disk says the same. From
        then on (``decided``) a boot would decide no differently. */
    method Resolve(c: Course) returns (r: ResolveOutcome, ghost decided: bool)
      requires Consistent() && SourceKept() && running
      modifies this
      ensures Consistent() && SourceKept() && before == old(before)
      ensures decided ==> onDisk == old(inMemory) && (running ==> inMemory == old(inMemory))
      ensures !decided ==> stores == old(stores) && aside == old(aside) && (onDisk == old(onDisk) || onDisk == old(inMemory))
      ensures old(journal) == NoJournal ==> !decided
      ensures running ==> inMemory == old(inMemory)
      ensures r == Kept ==> old(journal).Intent? && running && inMemory && onDisk && Settled(old(journal).stores)
      ensures r == PutBack ==> old(journal).Intent? && running && !inMemory && !onDisk && Settled(old(journal).stores)
      ensures journal == NoJournal || journal == old(journal)
      ensures r == RefusedUnreadable <==> old(journal) == Unreadable && old(aside) != map[]
      ensures old(journal).Intent? && journal == NoJournal ==> decided && Settled(old(journal).stores)
      ensures r == NothingPending <==> old(journal) == NoJournal
      ensures Smooth(c) && old(journal).Intent? ==> r == if old(inMemory) then Kept else PutBack
      ensures Smooth(c) && old(journal) == Unreadable && old(aside) == map[] ==> r == DroppedUnreadable && journal == NoJournal
    {
      decided := false;
      if journal == NoJournal { return NothingPending, decided; }
      if journal == Unreadable {
        if aside != map[] { return RefusedUnreadable, decided; }
        if c(RemoveIntent) != Through { return Unsettled, decided; }
        journal := NoJournal;
        return DroppedUnreadable, decided;
      }
      var present := inMemory;
      var p, confirmed := SaveConfigEntries(!present, c);
      if p != Go { return Stopped, decided; }
      if !confirmed { return Unconfirmed, decided; }
      decided := true;
      r := SettleAll(present, c);
    }

    /** The boot settles first, and drops the extraction only where no intent may still need it, nor, with ``rebuild``, a
        planned clean start. */
    method CleanLeftovers(rebuild: bool, c: Course) returns (killed: bool)
      requires Consistent() && SourceKept() && !running
      modifies this`stores, this`aside, this`done, this`orphans, this`journal, this`source
      ensures Consistent() && SourceKept()
      ensures old(journal).Intent? && journal == NoJournal ==> Settled(old(journal).stores)
      ensures journal != NoJournal ==> source == old(source) && journal == old(journal)
      ensures old(journal) == NoJournal ==> stores == old(stores)
      ensures Smooth(c) ==> !killed && journal == NoJournal && done == {} && source == (old(source) && rebuild)
    {
      var r, _, _ := Recover(c);
      killed := c(AfterCleaning) == Kills;
      if r == NotRecovered { return; }
      assert aside == map[];  // no original is left to put back by name
      done := set n | n in done && c(RemoveLeftover(n)) != Through;
      if !rebuild && !killed { source := false; }
    }

    /** While Home Assistant runs, Resolve may be asked for any number of times, and the entries may be saved at any
        moment, the last time as it stops; a kill ends it anywhere. */
    method Session(asks: seq<Course>)
      requires Consistent() && SourceKept() && running
      modifies this
      ensures Consistent() && SourceKept() && !running && before == old(before)
      ensures journal == NoJournal || journal == old(journal)
      ensures old(journal).Intent? && journal == NoJournal ==> Settled(old(journal).stores)
      ensures old(journal) == NoJournal ==> stores == old(stores) && (onDisk == old(onDisk) || onDisk == old(inMemory))
      ensures asks != [] && Smooth(asks[0]) && old(journal).Intent? ==> journal == NoJournal && onDisk == old(inMemory)
    {
      var k := 0;
      while k < |asks| && running
        invariant 0 <= k <= |asks|
        invariant k > 0 && Smooth(asks[0]) && old(journal).Intent? ==> journal == NoJournal && onDisk == old(inMemory)
        invariant Consistent() && SourceKept() && before == old(before)
        invariant journal == NoJournal || journal == old(journal)
        invariant old(journal).Intent? && journal == NoJournal ==> Settled(old(journal).stores) && (running ==> inMemory == onDisk)
        invariant old(journal) == NoJournal ==> stores == old(stores) && (onDisk == old(onDisk) || onDisk == old(inMemory))
        invariant running ==> inMemory == old(inMemory)
        invariant k == 0 ==> running
      {
        var r, decided := Resolve(asks[k]);
        k := k + 1;
      }
      if running {
        var p := Tick(Through, false);
        running, inMemory := false, false;
      }
    }

    /** Home Assistant starts on what is on disk, perhaps with an import still unresolved. */
    method Run(asks: seq<Course>)
      requires Consistent() && SourceKept() && !running
      modifies this
      ensures Consistent() && SourceKept() && !running && before == old(before)
      ensures journal == NoJournal || journal == old(journal)
      ensures old(journal).Intent? && journal == NoJournal ==> Settled(old(journal).stores)
      ensures old(journal) == NoJournal ==> stores == old(stores) && onDisk == old(onDisk)
    {
      running, inMemory := true, onDisk;
      Session(asks);
    }

    /** An import cut at any step; Resolve in the same Home Assistant, where memory and disk may disagree; then any
        number of boots, each cut at any step or followed by a run of Home Assistant. Once the record is gone, the
        entry is on disk with all of its stores, or it is not there and every store is the one from before. */
    method ImportLife(listed: set<string>, c: Course, asks: seq<Course>, boots: seq<Round>)
      requires Consistent() && running && journal == NoJournal
      modifies this
      ensures Consistent() && SourceKept()
      ensures journal == NoJournal ==>
        || (stores == old(stores) && (onDisk ==> old(onDisk || inMemory)))
        || (onDisk && AllImported(map n | n in listed :: true, stores))
      // one boot that nothing stops settles whatever is left
      ensures (exists i :: 0 <= i < |boots| && Smooth(boots[i].boot)) ==> journal == NoJournal
    {
      var r := Import(listed, true, c);
      if running { Session(asks); }
      for i := 0 to |boots|
        invariant (exists k :: 0 <= k < i && Smooth(boots[k].boot)) ==> journal == NoJournal
        invariant Consistent() && SourceKept() && !running && journal != Unreadable
        invariant journal.Intent? ==> before == old(stores) && journal.stores.Keys == listed
        invariant journal == NoJournal ==>
          || (stores == old(stores) && (onDisk ==> old(onDisk || inMemory)))
          || (onDisk && AllImported(map n | n in listed :: true, stores))
      {
        var killed := CleanLeftovers(false, boots[i].boot);
        if !killed { Run(boots[i].asks); }
      }
    }
  }

  datatype Recovery = Recovered | NotRecovered

  /** A boot, and how Resolve goes each time it is asked for while Home Assistant runs then. */
  datatype Round = Round(boot: Course, asks: seq<Course>)
}
