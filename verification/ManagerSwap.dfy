/** The manager's own files, copied from the image at every boot: next to the ones in place, then swapped in with two
    renames. A rename is one step; removing or copying a directory can stop half way. */
module ManagerSwap {
  /** What is at a path: nothing, a whole manager, the image's or an older one, a directory with part of one, a file or a
      link. */
  datatype Place = Nothing | Manager(image: bool) | Part | File | Link

  datatype Outcome = Done | Failed | Killed

  /** What can go wrong in one boot. Removing and copying a tree is two steps each: begun, and through. */
  datatype Step =
    | SweepCopy | SweepAllCopy | SweepBack | SweepAside | SweepAllAside
    | PutBack | ClearCopy | ClearAllCopy | ClearAside | ClearAllAside
    | CopyTree | CopyAll | DropCopy | DropAllCopy | MoveAside | MoveIn | MoveBack | DropAside | DropAllAside

  type Course = Step -> Outcome

  ghost predicate Smooth(c: Course) {
    forall s :: c(s) == Done
  }

  predicate Directory(p: Place) {
    p.Manager? || p == Part
  }

  /** What is at a path once it is removed, or as much of it as ``begin`` and ``end`` let go. */
  function Removed(p: Place, begin: Outcome, end: Outcome): Place {
    if begin != Done then p else if Directory(p) && end != Done then Part else Nothing
  }

  class Components {
    var place: Place   // custom_components/integration_manager
    var copy: Place    // ... .deploying
    var aside: Place   // ... .replaced

    /** A complete manager is at its place, or set aside with its place empty. */
    predicate Safe()
      reads this
    {
      place.Manager? || (place == Nothing && aside.Manager?)
    }

    /** Or there never was one: what is at the place is no part of one, and nothing is set aside. */
    predicate Startable()
      reads this
    {
      Safe() || (place != Part && !Directory(aside))
    }

    constructor (place: Place, copy: Place, aside: Place)
      ensures this.place == place && this.copy == copy && this.aside == aside
    {
      this.place, this.copy, this.aside := place, copy, aside;
    }

    /** Remove what is at the copy's path. */
    method RemoveCopy(begin: Outcome, end: Outcome) returns (r: Outcome)
      modifies this`copy
      ensures copy == Removed(old(copy), begin, end)
      ensures r == Done <==> copy == Nothing
      ensures begin == end == Done ==> r == Done
      ensures r != Killed || begin == Killed || end == Killed
    {
      r := Done;
      if copy == Nothing { return; }
      r := begin;
      if r != Done { return; }
      if Directory(copy) {
        copy := Part;
        r := end;
        if r != Done { return; }
      }
      copy := Nothing;
    }

    method RemoveAside(begin: Outcome, end: Outcome) returns (r: Outcome)
      modifies this`aside
      ensures aside == Removed(old(aside), begin, end)
      ensures r == Done <==> aside == Nothing
      ensures begin == end == Done ==> r == Done
      ensures r != Killed || begin == Killed || end == Killed
    {
      r := Done;
      if aside == Nothing { return; }
      r := begin;
      if r != Done { return; }
      if Directory(aside) {
        aside := Part;
        r := end;
        if r != Done { return; }
      }
      aside := Nothing;
    }

    /** Whatever a cut left, a whole manager that was on either side is in place afterwards, or still on its side. */
    method SweepDeployLeftovers(c: Course) returns (r: Outcome)
      modifies this
      ensures (old(Safe()) ==> Safe()) && (old(Startable()) ==> Startable())
      ensures r == Done && old(Safe()) ==> place.Manager?
      ensures place == old(place) || (old(place) == Nothing && Directory(old(aside)) && place == old(aside))
      ensures Smooth(c) ==> r == Done && !Directory(copy) && !Directory(aside)
      ensures Smooth(c) ==> place == if old(place) == Nothing && Directory(old(aside)) then old(aside) else old(place)
    {
      var clean := Done;
      if Directory(copy) {
        clean := RemoveCopy(c(SweepCopy), c(SweepAllCopy));
        if clean == Killed { return Killed; }
      }
      r := clean;
      if Directory(aside) {
        if place == Nothing {
          var moved := c(SweepBack);
          if moved == Done { place, aside := aside, Nothing; }
          return if moved == Done then clean else moved;
        }
        var removed := RemoveAside(c(SweepAside), c(SweepAllAside));
        if removed != Done { return removed; }
      }
    }

    method CopyFromImage(c: Course) returns (r: Outcome)
      requires copy == Nothing
      modifies this`copy
      ensures r == Done <==> c(CopyTree) == c(CopyAll) == Done
      ensures r == Done ==> copy == Manager(true)
      ensures r == Failed ==> CopyFails(c)
    {
      r := c(CopyTree);
      if r == Done {
        copy := Part;
        r := c(CopyAll);
        if r == Done { copy := Manager(true); }
      }
      if r == Failed {
        var removed := RemoveCopy(c(DropCopy), c(DropAllCopy));  // errors ignored
        if removed == Killed { return Killed; }
      }
    }

    ghost predicate CopyFails(c: Course) {
      c(CopyTree) == Failed || (c(CopyTree) == Done && c(CopyAll) == Failed)
    }

    /** Two renames: out of the way, then in. */
    method SwapIn(c: Course) returns (r: Outcome)
      requires copy == Manager(true) && aside == Nothing
      modifies this
      ensures old(place).Manager? ==> Safe()
      ensures old(place) != Part ==> Startable()
      ensures r == Done ==> place == Manager(true) && copy == Nothing
      ensures c(MoveAside) == c(MoveIn) == Done ==> place == Manager(true) && (r == Done || (r == Killed && (c(DropAside) == Killed || c(DropAllAside) == Killed)))
      ensures c(MoveIn) == Failed && c(MoveAside) == c(MoveBack) == Done && old(place) != Link ==> r == Failed && place == old(place)
      ensures Smooth(c) ==> !Directory(aside)
    {
      r := if place == Nothing then Done else c(MoveAside);
      if r != Done { return; }
      if place == Link {
        place := Nothing;  // only the name in this directory
      } else if place != Nothing {
        place, aside := Nothing, place;
      }
      r := c(MoveIn);
      if r == Killed { return; }
      if r == Failed {
        var back := if aside != Nothing then c(MoveBack) else Done;
        if aside != Nothing && back == Done { place, aside := aside, Nothing; }
        return if back == Killed then Killed else Failed;
      }
      place, copy := Manager(true), Nothing;
      if Directory(aside) {
        var removed := RemoveAside(c(DropAside), c(DropAllAside));  // errors ignored
        if removed == Killed { return Killed; }
      }
      r := Done;
    }

    /** One boot's attempt: the new tree is complete before the swap begins, so a failure before it changes nothing, and a
        boot that gets through has the image's manager in place, or the one that was there if the copy failed. */
    method SyncManagerComponent(c: Course) returns (r: Outcome)
      modifies this
      ensures (old(Safe()) ==> Safe()) && (old(Startable()) ==> Startable())
      ensures r == Done && (old(Startable()) || (old(place) != Part && old(aside) != Part)) ==> place.Manager?
      ensures r == Done ==> place == Manager(true) || (CopyFails(c) && place == if old(place) == Nothing then old(aside) else old(place))
      ensures Smooth(c) ==> r == Done && place == Manager(true) && copy == Nothing && !Directory(aside)
    {
      if Directory(aside) && place == Nothing {
        r := c(PutBack);
        if r != Done { return; }
        place, aside := aside, Nothing;
      }
      r := RemoveCopy(c(ClearCopy), c(ClearAllCopy));
      if r != Done { return; }
      r := RemoveAside(c(ClearAside), c(ClearAllAside));
      if r != Done { return; }
      r := CopyFromImage(c);
      if r == Killed { return; }
      if r == Failed {
        return if Directory(place) then Done else Failed;
      }
      r := SwapIn(c);
    }

    /** Any number of boots, each cut anywhere, on a volume with a manager or a fresh one: a boot that gets through with
        neither an error nor a kill has a complete manager at its place, and from then on, as on a volume that had one,
        there always is one. After a boot in which nothing went wrong it is the image's. */
    method Boots(courses: seq<Course>) returns (last: Outcome, ghost through: bool)
      requires Startable()
      modifies this
      ensures Startable() && (old(Safe()) || through ==> Safe())
      ensures courses != [] && last == Done ==> place.Manager? && through
      ensures courses != [] && Smooth(courses[|courses| - 1]) ==> last == Done && place == Manager(true)
    {
      last, through := Failed, false;
      for i := 0 to |courses|
        invariant Startable() && (old(Safe()) || through ==> Safe())
        invariant i > 0 && last == Done ==> place.Manager? && through
        invariant i > 0 && Smooth(courses[i - 1]) ==> last == Done && place == Manager(true)
      {
        var swept := SweepDeployLeftovers(courses[i]);
        last := Killed;
        if swept != Killed { last := SyncManagerComponent(courses[i]); }
        through := through || last == Done;
      }
    }
  }

  /** From the first boot on, with nothing there, however often the first copy is cut half way. */
  method FreshVolume(courses: seq<Course>) returns (c: Components, last: Outcome)
    ensures c.Startable() && (courses != [] && last == Done ==> c.place.Manager?)
    ensures courses != [] && Smooth(courses[|courses| - 1]) ==> c.place == Manager(true)
  {
    c := new Components(Nothing, Nothing, Nothing);
    ghost var through;
    last, through := c.Boots(courses);
  }
}
