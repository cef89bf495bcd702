/** The table of what each Home Assistant release knows, built from the releases scanned, and the filter that reads it. A
    release is its year and month, as one number. */
module CompatTable {
  datatype Option<+T> = None | Some(value: T)

  type Release = nat

  datatype Scan = Scan(release: Release, platforms: set<string>)

  /** One patch of each release, the oldest first. */
  ghost predicate Ascending(scans: seq<Scan>) {
    forall i, j :: 0 <= i < j < |scans| ==> scans[i].release < scans[j].release
  }

  datatype Table = Table(oldest: Release, newest: Release, first: map<string, Release>, gone: map<string, Release>)

  // ----- what the scans hold -----------------------------------------------------------------

  /** The first and the last scan that has ``name``; -1: none has. */
  function First(scans: seq<Scan>, name: string): (f: int)
    ensures -1 <= f < |scans| && (f >= 0 ==> name in scans[f].platforms)
  {
    if scans == [] then -1
    else
      var f := First(scans[..|scans| - 1], name);
      if f >= 0 then f else if name in scans[|scans| - 1].platforms then |scans| - 1 else -1
  }

  function Last(scans: seq<Scan>, name: string): (l: int)
    ensures -1 <= l < |scans| && (l >= 0 ==> name in scans[l].platforms)
  {
    if scans == [] then -1
    else if name in scans[|scans| - 1].platforms then |scans| - 1
    else Last(scans[..|scans| - 1], name)
  }

  lemma {:induction false} BetweenFirstAndLast(scans: seq<Scan>, name: string, i: nat)
    requires i < |scans| && name in scans[i].platforms
    ensures 0 <= First(scans, name) <= i <= Last(scans, name)
  {
    if i < |scans| - 1 {
      assert scans[..|scans| - 1][i] == scans[i];
      BetweenFirstAndLast(scans[..|scans| - 1], name, i);
    }
  }

  lemma {:induction false} FirstAndLast(scans: seq<Scan>, name: string)
    ensures First(scans, name) >= 0 <==> Last(scans, name) >= 0
    ensures First(scans, name) <= Last(scans, name)
  {
    if scans != [] {
      FirstAndLast(scans[..|scans| - 1], name);
    }
  }

  // ----- building the table ------------------------------------------------------------------

  /** From the first release that has a name until the one after the last that has it. */
  ghost predicate Holds(scans: seq<Scan>, name: string, first: map<string, Release>, gone: map<string, Release>) {
    var f, l := First(scans, name), Last(scans, name);
    && (name in first <==> f >= 0) && (f >= 0 ==> first[name] == scans[f].release)
    && (name in gone <==> 0 <= l < |scans| - 1) && (name in gone ==> gone[name] == scans[l + 1].release)
  }

  /** What one scan makes of the entry of ``name``. */
  ghost predicate Steps(s: Scan, name: string, first: map<string, Release>, gone: map<string, Release>,
                        first': map<string, Release>, gone': map<string, Release>) {
    && (name in first' <==> name in first || name in s.platforms)
    && (name in first' ==> first'[name] == if name in first then first[name] else s.release)
    && (name in gone' <==> (name in first || name in gone) && name !in s.platforms)
    && (name in gone' ==> gone'[name] == if name in gone then gone[name] else s.release)
  }

  lemma StepHolds(scans: seq<Scan>, s: Scan, name: string, first: map<string, Release>, gone: map<string, Release>,
                  first': map<string, Release>, gone': map<string, Release>)
    requires Holds(scans, name, first, gone) && Steps(s, name, first, gone, first', gone')
    ensures Holds(scans + [s], name, first', gone')
  {
    var all := scans + [s];
    assert all[..|all| - 1] == scans && all[|all| - 1] == s;
    FirstAndLast(scans, name);
  }

  /** ``names`` were first seen at ``release``, unless they were known already. */
  ghost predicate Entered(m: map<string, Release>, r: map<string, Release>, names: set<string>, release: Release) {
    && (forall n :: n in r <==> n in m || n in names)
    && (forall n :: n in r ==> r[n] == if n in m then m[n] else release)
  }

  method SetDefault(m: map<string, Release>, name: string, release: Release, ghost was: map<string, Release>, ghost names: set<string>)
    returns (r: map<string, Release>)
    requires Entered(was, m, names, release)
    ensures Entered(was, r, names + {name}, release)
  {
    r := if name in m then m else m[name := release];
  }

  /** The platforms of a release: first seen at it, or back, which reopens the window. */
  method Present(s: Scan, first: map<string, Release>, gone: map<string, Release>)
    returns (first': map<string, Release>, gone': map<string, Release>)
    ensures Entered(first, first', s.platforms, s.release)
    ensures gone' == gone - s.platforms
  {
    first', gone' := first, gone;
    var rest := s.platforms;
    ghost var done: set<string> := {};
    while rest != {}
      invariant done + rest == s.platforms
      invariant Entered(first, first', done, s.release) && gone' == gone - done
      decreases |rest|
    {
      var name :| name in rest;
      first' := SetDefault(first', name, s.release, first, done);
      assert gone - done - {name} == gone - (done + {name});
      gone' := gone' - {name};
      rest, done := rest - {name}, done + {name};
    }
    assert done == s.platforms;
  }

  /** What was seen before and is not in it is gone, from the first such release on. */
  method Absent(s: Scan, first: map<string, Release>, gone: map<string, Release>) returns (gone': map<string, Release>)
    ensures Entered(gone, gone', first.Keys - s.platforms, s.release)
  {
    gone' := gone;
    var rest := first.Keys;
    ghost var done: set<string> := {};
    while rest != {}
      invariant done + (rest - s.platforms) == first.Keys - s.platforms
      invariant Entered(gone, gone', done, s.release)
      decreases |rest|
    {
      var name :| name in rest;
      rest := rest - {name};
      if name !in s.platforms {
        gone' := SetDefault(gone', name, s.release, gone, done);
        done := done + {name};
      }
    }
    assert done == first.Keys - s.platforms;
  }

  ghost predicate AllHold(scans: seq<Scan>, first: map<string, Release>, gone: map<string, Release>) {
    forall name :: Holds(scans, name, first, gone)
  }

  method ReadScan(ghost before: seq<Scan>, s: Scan, first: map<string, Release>, gone: map<string, Release>)
    returns (first': map<string, Release>, gone': map<string, Release>)
    requires AllHold(before, first, gone)
    ensures AllHold(before + [s], first', gone')
  {
    first', gone' := Present(s, first, gone);
    gone' := Absent(s, first', gone');
    forall name: string
      ensures Holds(before + [s], name, first', gone')
    {
      assert Holds(before, name, first, gone);
      StepHolds(before, s, name, first, gone, first', gone');
    }
  }

  method Build(scans: seq<Scan>) returns (t: Table)
    requires scans != [] && Ascending(scans)
    ensures t.oldest == scans[0].release && t.newest == scans[|scans| - 1].release
    ensures AllHold(scans, t.first, t.gone)
  {
    var first: map<string, Release>, gone: map<string, Release> := map[], map[];
    assert scans[..0] == [];
    for n := 0 to |scans|
      invariant AllHold(scans[..n], first, gone)
    {
      first, gone := ReadScan(scans[..n], scans[n], first, gone);
      assert scans[..n + 1] == scans[..n] + [scans[n]];
    }
    assert scans[..|scans|] == scans;
    t := Table(scans[0].release, scans[|scans| - 1].release, first, gone);
  }

  // ----- reading it --------------------------------------------------------------------------

  /** The release to look up for a declared one; None: nothing is filtered. */
  function LookedUp(t: Table, declared: Option<Release>): Option<Release> {
    if declared.None? || declared.value >= t.newest then None
    else if declared.value < t.oldest then Some(t.oldest)
    else declared
  }

  predicate Known(t: Table, release: Release, name: string) {
    name in t.first && t.first[name] <= release && (name in t.gone ==> release < t.gone[name])
  }

  predicate Knows(t: Table, declared: Option<Release>, name: string) {
    var r := LookedUp(t, declared);
    r.None? || Known(t, r.value, name)
  }

  /** The scan that answers for ``release``: the last one that is not newer. */
  ghost predicate Answers(scans: seq<Scan>, release: Release, i: int) {
    0 <= i < |scans| && scans[i].release <= release && (i < |scans| - 1 ==> release < scans[i + 1].release)
  }

  /** A platform is known for a release exactly when the scan that answers for it lies between the first and the last
      scan that has it. */
  lemma KnownMeans(scans: seq<Scan>, t: Table, release: Release, i: int, name: string)
    requires Ascending(scans) && Holds(scans, name, t.first, t.gone) && Answers(scans, release, i)
    ensures Known(t, release, name) <==> 0 <= First(scans, name) <= i <= Last(scans, name)
  {
    var f, l := First(scans, name), Last(scans, name);
    FirstAndLast(scans, name);
    if f >= 0 {
      assert scans[f].release <= release <==> f <= i;
      assert l < |scans| - 1 ==> (release < scans[l + 1].release <==> i <= l);
    }
  }

  /** What a scanned release has it knows; what it knows and has not comes back in a later one. */
  lemma TableRefinesTheScan(scans: seq<Scan>, t: Table, i: nat, name: string)
    requires Ascending(scans) && i < |scans| && Holds(scans, name, t.first, t.gone)
    ensures name in scans[i].platforms ==> Known(t, scans[i].release, name)
    ensures Known(t, scans[i].release, name) && name !in scans[i].platforms ==>
              exists later :: i < later < |scans| && name in scans[later].platforms
  {
    KnownMeans(scans, t, scans[i].release, i, name);
    if name in scans[i].platforms { BetweenFirstAndLast(scans, name, i); }
  }

  /** With nothing declared, and from the newest release scanned on, nothing is filtered; below the oldest it answers; in
      between the last release scanned that is not newer. */
  lemma KnowsMeans(scans: seq<Scan>, t: Table, declared: Release, name: string)
    requires scans != [] && Ascending(scans) && Holds(scans, name, t.first, t.gone)
    requires t.oldest == scans[0].release && t.newest == scans[|scans| - 1].release
    ensures Knows(t, None, name)
    ensures declared >= t.newest ==> Knows(t, Some(declared), name)
    ensures declared < t.oldest ==> (Knows(t, Some(declared), name) <==> name in scans[0].platforms)
    ensures forall i :: Answers(scans, declared, i) && declared < t.newest ==>
              (Knows(t, Some(declared), name) <==> 0 <= First(scans, name) <= i <= Last(scans, name))
  {
    if declared < t.oldest {
      KnownMeans(scans, t, t.oldest, 0, name);
      if name in scans[0].platforms { BetweenFirstAndLast(scans, name, 0); }
    }
    forall i | Answers(scans, declared, i) && declared < t.newest
      ensures Knows(t, Some(declared), name) <==> 0 <= First(scans, name) <= i <= Last(scans, name)
    {
      KnownMeans(scans, t, declared, i, name);
      assert t.oldest <= scans[i].release;
    }
  }
}
