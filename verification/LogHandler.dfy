/** The log handler: records with one sequence of ids go to two rotated sets of files, and a follower reads both, a
    page at a time, while others write and rotate between any two of its steps. */
module LogHandler {
  import opened LogFollower
  import opened LogFiles
  import opened LogFirstPage

  /** The records of ``log`` that belong to one set are exactly the whole lines of its files. */
  ghost predicate Split(log: seq<Record>, gens: Files, debugSet: bool) {
    forall r :: r in log && (r.level < INFO <==> debugSet) <==> Holds(gens, r)
  }

  ghost predicate NoneAbove(gens: Files, id: int) {
    forall g, k :: At(gens, g, k) ==> LineId(gens[g][k]) <= id
  }

  ghost predicate SetHolds(log: seq<Record>, gens: Files, debugSet: bool, written: nat) {
    Ordered(gens) && Split(log, gens, debugSet) && NoneAbove(gens, written)
  }

  /** One record more, in one of the sets. */
  lemma OneMore(log: seq<Record>, was: Files, now: Files, debugSet: bool, id: nat, line: Line, r: Record)
    requires id > 0 && SetHolds(log, was, debugSet, id - 1) && Ordered(now) && LineId(line) == id
    requires forall g, k :: At(now, g, k) ==> (At(was, g, k) && now[g][k] == was[g][k]) || now[g][k] == line
    requires exists g, k :: At(now, g, k) && now[g][k] == line
    requires Grown(was, now, id - 1)
    requires line.Whole? ==> line.rec == r && (r.level < INFO <==> debugSet)
    ensures SetHolds(if line.Whole? then log + [r] else log, now, debugSet, id)
  {
    forall x | Holds(was, x) ensures Holds(now, x) {
      var g, k :| At(was, g, k) && was[g][k] == Whole(x);
      assert At(now, g, k) && now[g][k] == was[g][k];
    }
    forall x | Holds(now, x) && !Holds(was, x) ensures line == Whole(x) {
      var g, k :| At(now, g, k) && now[g][k] == Whole(x);
    }
    if line.Whole? {
      var g, k :| At(now, g, k) && now[g][k] == line;
      assert Holds(now, r);
    }
  }

  lemma LogGoesOn(log: seq<Record>, written: nat, r: Record)
    requires IsLog(log) && (forall x :: x in log ==> x.id <= written) && r.id == written + 1
    ensures IsLog(log + [r]) && GoesOn(log, log + [r], written) && GoesOn(log, log, written)
    ensures (forall x :: x in log + [r] ==> x.id <= written + 1)
  {
  }

  /** A record of the other set changes nothing here. */
  lemma OneElsewhere(log: seq<Record>, gens: Files, debugSet: bool, written: nat, id: nat, r: Record)
    requires SetHolds(log, gens, debugSet, written) && written <= id && (r.level < INFO <==> !debugSet)
    ensures SetHolds(log + [r], gens, debugSet, id)
  {
    assert forall x :: x in log + [r] <==> x in log || x == r;
  }

  datatype Snapshot = Snapshot(written: nat, log: seq<Record>, hasDebug: bool, main: Files, debug: Files)

  ghost predicate WentTo(a: Snapshot, b: Snapshot) {
    && a.written <= b.written && GoesOn(a.log, b.log, a.written) && (a.hasDebug ==> b.hasDebug)
    && Grown(a.main, b.main, a.written) && Grown(a.debug, b.debug, a.written)
  }

  /** Each set holds the records of its levels, and no id was given out twice. */
  ghost predicate Fine(a: Snapshot) {
    && SetHolds(a.log, a.main, false, a.written) && SetHolds(a.log, a.debug, true, a.written)
    && IsLog(a.log) && (forall r :: r in a.log ==> r.id <= a.written)
  }

  lemma WentRefl(a: Snapshot)
    requires Fine(a)
    ensures WentTo(a, a)
  {
    GrownRefl(a.main, a.written);
    GrownRefl(a.debug, a.written);
  }

  lemma WentGrown(a: Snapshot, b: Snapshot)
    requires WentTo(a, b)
    ensures Grown(a.main, b.main, a.written) && Grown(a.debug, b.debug, a.written)
  {
  }

  lemma WentTransitive(a: Snapshot, b: Snapshot, c: Snapshot)
    requires WentTo(a, b) && WentTo(b, c)
    ensures WentTo(a, c)
  {
    GrownLower(b.main, c.main, b.written, a.written);
    GrownLower(b.debug, c.debug, b.written, a.written);
    GrownTransitive(a.main, b.main, c.main, a.written);
    GrownTransitive(a.debug, b.debug, c.debug, a.written);
    assert forall i :: |a.log| <= i < |b.log| ==> c.log[i] == b.log[i];
  }

  /** Reading a set back to the oldest file on the disk gives a view of the log. */
  lemma ScanIsView(s: Scanner, was: Files, gens: Files, keep: nat, log: seq<Record>, debugSet: bool, written: nat)
    requires Scanned(s, was, gens, keep) && s.k == keep + 1 && Ordered(gens) && Grown(was, gens, written) && Split(log, gens, debugSet)
    ensures ViewDown(s.recs, log, debugSet, written, GoneFrom(gens, keep))
  {
    forall r | r in s.recs ensures r in log && (r.level < INFO <==> debugSet) {
      var g, k :| At(gens, g, k) && s.low <= g && gens[g][k] == Whole(r);
      assert Holds(gens, r);
    }
    forall r | r in log && (r.level < INFO <==> debugSet) && GoneFrom(gens, keep) < r.id
               && (r.id <= written || (s.recs != [] && r.id <= s.recs[0].id))
      ensures r in s.recs
    {
      assert Holds(gens, r);
      var g, k :| At(gens, g, k) && gens[g][k] == Whole(r);
      if g < s.low { OldFileIsGone(gens, keep, g, k); }
    }
  }

  /** The lines being written at the ends of the two sets when a poll reads them. */
  datatype Marks = Marks(main: Option<nat>, debug: Option<nat>) {
    predicate Quiet() {
      main.None? && debug.None?
    }
  }

  /** How a run of a follower began: the first page and its cursor, and what each set had lost by then. */
  datatype Begun = Begun(page: seq<Record>, cursor: nat, goneMain: nat, goneDebug: nat)

  /** What a follower was given, from a first page or from an id it knew. */
  ghost predicate Given(q: Query, log: seq<Record>, start: nat, b: Begun, polls: seq<Poll>, out: seq<Record>, cursor: nat) {
    && (if start > 0 then b.page == [] && b.cursor == start else NewestPage(q, log, b.page, b.cursor, b.goneMain, b.goneDebug))
    && FaithfulRun(q, polls, log, b.cursor)
    && out == b.page + Follow(q, polls, b.cursor).0 && cursor == Follow(q, polls, b.cursor).1
  }

  /** Not given because it is older than a first page that was full, or was off the disk when that was read. */
  ghost predicate BeforeFirstPage(q: Query, start: nat, b: Begun, r: Record) {
    && start == 0 && r.id <= b.cursor
    && (r.id <= (if r.level < INFO then b.goneDebug else b.goneMain) || (|b.page| >= q.limit && forall x :: x in b.page ==> r.id < x.id))
  }

  /** What a whole run gives: the matching records in id order, each once, and none missing up to the cursor but those
      older than the first page and those off the disk at the poll that passed them. */
  lemma RunIsExact(q: Query, log: seq<Record>, start: nat, b: Begun, polls: seq<Poll>, out: seq<Record>, cursor: nat)
    requires IsLog(log) && Given(q, log, start, b, polls, out, cursor)
    ensures start <= b.cursor <= cursor
    ensures forall i, j :: 0 <= i < j < |out| ==> out[i].id < out[j].id
    ensures forall r :: r in out ==> r in log && q.Matches(r) && start < r.id <= cursor
    ensures forall r :: r in log && q.Matches(r) && start < r.id <= cursor ==>
                          r in out || Lost(q, polls, b.cursor, r) || BeforeFirstPage(q, start, b, r)
  {
    hide Query.Matches, Lost, FaithfulRun;
    FollowIsExact(q, polls, log, b.cursor);
    var (rest, _) := Follow(q, polls, b.cursor);
    forall r | r in b.page ensures r.id > 0 { var i :| 0 <= i < |log| && log[i] == r; }
  }

  lemma WentWritten(a: Snapshot, b: Snapshot)
    requires WentTo(a, b)
    ensures a.written <= b.written && (a.hasDebug ==> b.hasDebug) && GoesOn(a.log, b.log, a.written)
  {
  }

  lemma WentLength(a: Snapshot, b: Snapshot)
    requires WentTo(a, b)
    ensures 0 < |a.main| <= |b.main| && 0 < |a.debug| <= |b.debug|
  {
  }

  lemma NothingScanned(gens: Files, keep: nat)
    ensures Scanned(Scanner(0, 0, 0, [], None), gens, gens, keep)
  {
  }

  /** A poll's cursor is no id that was not given out. */
  lemma CursorIsWritten(q: Query, log: seq<Record>, p: Poll, since: nat, upTo: nat, written: nat)
    requires IsLog(log) && Faithful(p, log, since) && p.written <= upTo <= written
    requires forall r :: r in log ==> r.id <= written
    ensures var cursor := Answer(q, p.main, p.debug, since, p.written).cursor;
            since <= cursor && (since <= upTo ==> cursor <= written)
  {
    hide ReadOn, Query.Matches;
    var n, page := PollGetsTo(q, log, p, since);
    if n > 0 { assert Items(p)[n - 1] in Items(p) && IdOf(Items(p)[n - 1]) > since; }
  }

  /** What was off the disk at each poll is off the disk now. */
  ghost predicate GoneBy(b: Begun, polls: seq<Poll>, goneMain: nat, goneDebug: nat, written: nat) {
    && b.goneMain <= goneMain && b.goneDebug <= goneDebug
    && forall p :: p in polls ==> p.goneMain <= goneMain && p.goneDebug <= goneDebug && p.written <= written
  }

  lemma GoneLow(goneMain: nat, goneDebug: nat, start: nat, written: nat)
    ensures GoneBy(Begun([], start, 0, 0), [], goneMain, goneDebug, written)
  {
  }

  lemma FineLog(a: Snapshot)
    requires Fine(a)
    ensures IsLog(a.log)
  {
  }

  lemma GoneFirst(b: Begun, written: nat)
    ensures GoneBy(b, [], b.goneMain, b.goneDebug, written)
  {
  }

  lemma GoneMore(b: Begun, polls: seq<Poll>, p: Poll, written: nat)
    requires GoneBy(b, polls, p.goneMain, p.goneDebug, written) && p.written <= written
    ensures GoneBy(b, polls + [p], p.goneMain, p.goneDebug, written)
  {
  }

  lemma NothingGiven(q: Query, log: seq<Record>, start: nat)
    requires IsLog(log)
    ensures Given(q, log, start, Begun([], start, 0, 0), [], [], start)
  {
    assert [] + Follow(q, [], start).0 == [];
    forall r | r in log ensures r.id > 0 { var i :| 0 <= i < |log| && log[i] == r; }
  }

  lemma PageIds(q: Query, log: seq<Record>, b: Begun)
    requires IsLog(log) && NewestPage(q, log, b.page, b.cursor, b.goneMain, b.goneDebug)
    ensures b.cursor == 0 ==> b.page == []
  {
    if b.page != [] {
      var i :| 0 <= i < |log| && log[i] == b.page[0];
    }
  }

  lemma GivenFirst(q: Query, log: seq<Record>, b: Begun)
    requires NewestPage(q, log, b.page, b.cursor, b.goneMain, b.goneDebug)
    ensures Given(q, log, 0, b, [], b.page, b.cursor)
  {
    assert b.page + Follow(q, [], b.cursor).0 == b.page;
  }

  lemma GivenMore(q: Query, log: seq<Record>, start: nat, b: Begun, polls: seq<Poll>, out: seq<Record>, cursor: nat, p: Poll)
    requires Given(q, log, start, b, polls, out, cursor) && (p.debug.Some? || q.minLevel >= INFO) && Faithful(p, log, cursor)
    ensures var a := Answer(q, p.main, p.debug, cursor, p.written);
            Given(q, log, start, b, polls + [p], out + a.out, a.cursor)
  {
    hide Answer, Faithful, NewestPage;
    FollowSnoc(q, polls, p, log, b.cursor);
    var a := Answer(q, p.main, p.debug, cursor, p.written);
    assert b.page + (Follow(q, polls, b.cursor).0 + a.out) == out + a.out;
  }

  lemma GivenGrows(q: Query, start: nat, b: Begun, polls: seq<Poll>, out: seq<Record>, cursor: nat, was: Snapshot, now: Snapshot, keep: nat, keepDebug: nat)
    requires Given(q, was.log, start, b, polls, out, cursor) && WentTo(was, now) && cursor <= was.written
    requires Fine(was) && Fine(now)
    requires GoneBy(b, polls, GoneFrom(was.main, keep), GoneFrom(was.debug, keepDebug), was.written)
    ensures Given(q, now.log, start, b, polls, out, cursor) && cursor <= now.written
    ensures GoneBy(b, polls, GoneFrom(now.main, keep), GoneFrom(now.debug, keepDebug), now.written)
  {
    hide NewestPage, Grown, Lost, Query.Matches, FaithfulRun;
    WentGrown(was, now);
    GoneGrows(was.main, now.main, keep, was.written);
    GoneGrows(was.debug, now.debug, keepDebug, was.written);
    RunGrows(q, polls, was.log, now.log, b.cursor, was.written);
    FollowIsExact(q, polls, was.log, b.cursor);
    if start == 0 { NewestPageGrows(q, was.log, now.log, b.page, b.cursor, b.goneMain, b.goneDebug, was.written); }
  }

  /** Every matching record of before the poll is given, but for those off the disk. */
  ghost predicate GivenAll(q: Query, log: seq<Record>, since: nat, out: seq<Record>, written: nat, goneMain: nat, goneDebug: nat) {
    forall r :: r in log && q.Matches(r) && since < r.id <= written && r.id > (if r.level < INFO then goneDebug else goneMain) ==> r in out
  }

  lemma QuietPoll(q: Query, log: seq<Record>, p: Poll, since: nat)
    requires IsLog(log) && Faithful(p, log, since) && (p.debug.Some? || q.minLevel >= INFO)
    requires AllRead(p.main) && (p.debug.Some? ==> AllRead(p.debug.value))
    ensures var a := Answer(q, p.main, p.debug, since, p.written);
            (a.truncated && |a.out| == q.limit) || GivenAll(q, log, since, a.out, p.written, p.goneMain, p.goneDebug)
  {
    hide Query.Matches, Answer, Faithful;
    var a := Answer(q, p.main, p.debug, since, p.written);
    forall r | r in log && q.Matches(r) && since < r.id <= p.written && r.id > (if r.level < INFO then p.goneDebug else p.goneMain)
      ensures r in a.out || (a.truncated && |a.out| == q.limit)
    {
      PollGoesOn(q, log, p, since, r);
    }
  }

  lemma QuietFirst(q: Query, f: First, log: seq<Record>, goneMain: nat, goneDebug: nat)
    requires IsLog(log) && FaithfulFirst(f, log, goneMain, goneDebug) && (f.debug.Some? || q.minLevel >= INFO) && f.ceiling.None?
    ensures NoneBeyond(q, log, FirstAnswer(q, f).cursor, f.written, goneMain, goneDebug)
  {
    hide Query.Matches, FirstAnswer, FaithfulFirst;
    forall r | r in log && q.Matches(r) && r.id <= f.written && r.id > (if r.level < INFO then goneDebug else goneMain)
      ensures r.id <= FirstAnswer(q, f).cursor
    {
      FirstPageGoesOn(q, f, log, goneMain, goneDebug, r);
    }
  }

  /** After ``n`` polls the follower was given that many full pages, or is past all that was there to begin with. */
  ghost predicate GotOn(q: Query, n: nat, count: nat, log: seq<Record>, cursor: nat, written: nat, goneMain: nat, goneDebug: nat) {
    count >= q.limit * n || NoneBeyond(q, log, cursor, written, goneMain, goneDebug)
  }

  lemma GotOnBegins(q: Query, log: seq<Record>, cursor: nat, written: nat, goneMain: nat, goneDebug: nat)
    ensures GotOn(q, 0, 0, log, cursor, written, goneMain, goneDebug)
  {
  }

  lemma GotOnGrows(q: Query, n: nat, count: nat, was: Snapshot, now: Snapshot, cursor: nat, written: nat, keep: nat, keepDebug: nat)
    requires GotOn(q, n, count, was.log, cursor, written, GoneFrom(was.main, keep), GoneFrom(was.debug, keepDebug))
    requires WentTo(was, now) && Fine(was) && Fine(now) && written <= was.written
    ensures GotOn(q, n, count, now.log, cursor, written, GoneFrom(now.main, keep), GoneFrom(now.debug, keepDebug))
  {
    assert Ordered(was.main) && Ordered(now.main) && Ordered(was.debug) && Ordered(now.debug);
    hide Grown, Query.Matches, SetHolds, Ordered;
    WentGrown(was, now);
    GoneGrows(was.main, now.main, keep, was.written);
    GoneGrows(was.debug, now.debug, keepDebug, was.written);
    forall r | r in now.log && r !in was.log ensures r.id > was.written {
      var i :| 0 <= i < |now.log| && now.log[i] == r;
    }
  }

  lemma GotOnFirst(q: Query, n: nat, count: nat, log: seq<Record>, cursor: nat, since: nat, written: nat, goneMain: nat, goneDebug: nat)
    requires NoneBeyond(q, log, cursor, since, goneMain, goneDebug) && written <= since
    ensures GotOn(q, n, count, log, cursor, written, goneMain, goneDebug)
  {
    hide Query.Matches;
  }

  lemma GotOnMore(q: Query, n: nat, count: nat, log: seq<Record>, p: Poll, cursor: nat, written: nat)
    requires IsLog(log) && Faithful(p, log, cursor) && written <= p.written
    requires GotOn(q, n, count, log, cursor, written, p.goneMain, p.goneDebug)
    requires var a := Answer(q, p.main, p.debug, cursor, p.written);
             (a.truncated && |a.out| == q.limit) || GivenAll(q, log, cursor, a.out, p.written, p.goneMain, p.goneDebug)
    ensures var a := Answer(q, p.main, p.debug, cursor, p.written);
            GotOn(q, n + 1, count + |a.out|, log, a.cursor, written, p.goneMain, p.goneDebug)
  {
    hide Query.Matches, Answer, Faithful;
    PollIsSound(q, log, p, cursor);
    assert q.limit * (n + 1) == q.limit * n + q.limit;
  }

  class Handler {
    const main: Stream
    const debug: Stream
    var hasDebug: bool     // process-debug.log exists
    var written: nat       // the newest id given out
    ghost var log: seq<Record>

    constructor (keep: nat)
      ensures Valid() && fresh(main) && fresh(debug) && !hasDebug && written == 0 && log == []
    {
      main := new Stream(keep);
      debug := new Stream(keep);
      hasDebug, written, log := false, 0, [];
    }

    ghost predicate Valid()
      reads this, main, debug
    {
      main != debug && Fine(Snap())
    }

    ghost function Snap(): Snapshot
      reads this, main, debug
    {
      Snapshot(written, log, hasDebug, main.gens, debug.gens)
    }

    /** What others may do meanwhile: write, and rotate. */
    twostate predicate Went()
      reads this, main, debug
    {
      WentTo(old(Snap()), Snap())
    }

    /** One record: its id is the next, whatever becomes of the record. ``whole``: it was written to its end;
        otherwise a crash cut it short, and the next start ended its line. */
    method Emit(level: int, logger: string, message: string, stored: bool, whole: bool, full: bool)
      requires Valid()
      modifies this`hasDebug, this`written, this`log, main`gens, debug`gens
      ensures Valid() && Went() && written == old(written) + 1
      ensures log == if stored && whole then old(log) + [Record(written, level, logger, message)] else old(log)
      ensures hasDebug == (old(hasDebug) || (stored && level < INFO))
    {
      hide SetHolds, Grown, IsLog, GoesOn;
      var id := written + 1;
      var r := Record(id, level, logger, message);
      var line := if whole then Whole(r) else Torn(id);
      LogGoesOn(log, written, r);
      Later(main, false, stored && whole, r);
      Later(debug, true, stored && whole, r);
      if stored && level >= INFO {
        Store(main, false, line, full, r);
      } else if stored {
        hasDebug := true;
        Store(debug, true, line, full, r);
      }
      written := id;
      if stored && whole { log := log + [r]; }
    }

    /** A set that the next record does not go to. */
    lemma Later(stream: Stream, debugSet: bool, more: bool, r: Record)
      requires SetHolds(log, stream.gens, debugSet, written) && r.id == written + 1
      ensures Grown(stream.gens, stream.gens, written)
      ensures !more ==> SetHolds(log, stream.gens, debugSet, written + 1)
      ensures more && (r.level < INFO <==> !debugSet) ==> SetHolds(log + [r], stream.gens, debugSet, written + 1)
    {
      GrownRefl(stream.gens, written);
      if more && (r.level < INFO <==> !debugSet) { OneElsewhere(log, stream.gens, debugSet, written, written + 1, r); }
    }

    method Store(stream: Stream, debugSet: bool, line: Line, full: bool, ghost r: Record)
      requires SetHolds(log, stream.gens, debugSet, written) && LineId(line) == written + 1
      requires line.Whole? ==> line.rec == r && (r.level < INFO <==> debugSet)
      modifies stream`gens
      ensures Grown(old(stream.gens), stream.gens, written)
      ensures SetHolds(if line.Whole? then log + [r] else log, stream.gens, debugSet, written + 1)
    {
      stream.Write(line, full);
      OneMore(log, old(stream.gens), stream.gens, debugSet, written + 1, line, r);
    }

    /** Other threads: any number of records. */
    method Others()
      requires Valid()
      modifies this`hasDebug, this`written, this`log, main`gens, debug`gens
      ensures Valid() && Went()
    {
      var n := *;
      if n < 0 { n := 0; }
      hide WentTo, Grown;
      WentRefl(Snap());
      for i := 0 to n
        invariant Valid() && Went()
      {
        var level: int, logger: string, message: string := *, *, *;
        var stored: bool, whole: bool, full: bool := *, *, *;
        ghost var before := Snap();
        Emit(level, logger, message, stored, whole, full);
        WentTransitive(old(Snap()), before, Snap());
      }
    }

    // ----- one poll -----------------------------------------------------------------------------

    /** Open and read the files of the sets, in any order and with anything written between two steps. */
    method ReadSets(merged: bool, since: nat, marks: Marks) returns (items: seq<Item>, second: seq<Item>)
      requires Valid()
      modifies this`hasDebug, this`written, this`log, main`gens, debug`gens
      ensures Valid() && Went()
      ensures IsRead(main.gens, items, since, old(written), main.Gone())
      ensures merged ==> IsRead(debug.gens, second, since, old(written), debug.Gone())
      ensures marks.Quiet() ==> AllRead(items) && AllRead(second)
    {
      hide WentTo, Grown, Good, IsRead, Split, NoneAbove, IdsGrow, IsLog;
      var was, wasDebug := main.gens, debug.gens;
      var a, b: Reader := Opening(0, []), Opening(0, []);
      NothingOpened(was, main.keep, since);
      NothingOpened(wasDebug, debug.keep, since);
      WentRefl(Snap());
      while !Through(a) || (merged && !Through(b))
        invariant Valid() && Went()
        invariant Good(a, was, main.gens, main.keep, since) && Good(b, wasDebug, debug.gens, debug.keep, since)
        invariant Left(a, main.keep) >= 0 && Left(b, debug.keep) >= 0
        decreases Left(a, main.keep) + Left(b, debug.keep)
      {
        ghost var before := Snap();
        Others();
        WentTransitive(old(Snap()), before, Snap());
        WentGrown(before, Snap());
        WentGrown(old(Snap()), Snap());
        GoodGrows(a, was, before.main, main.gens, main.keep, since, before.written);
        GoodGrows(b, wasDebug, before.debug, debug.gens, debug.keep, since, before.written);
        var first: bool := *;
        if Through(b) || !merged || (first && !Through(a)) {
          a := Step(a, was, main.gens, main.keep, since, old(written));
        } else {
          b := Step(b, wasDebug, debug.gens, debug.keep, since, old(written));
        }
      }
      WentGrown(old(Snap()), Snap());
      items := Result(a, was, main.gens, main.keep, since, old(written), marks.main);
      if merged { second := Result(b, wasDebug, debug.gens, debug.keep, since, old(written), marks.debug); } else { second := []; }
    }

    /** Read the files of the sets back from the newest, in any order and with anything written between two steps.
        ``ceiling``: the lowest id of a line that was still being written. */
    method ScanSets(merged: bool, marks: Marks) returns (recs: seq<Record>, second: seq<Record>, ceiling: Option<nat>)
      requires Valid()
      modifies this`hasDebug, this`written, this`log, main`gens, debug`gens
      ensures Valid() && Went()
      ensures ViewDown(recs, log, false, old(written), main.Gone())
      ensures merged ==> ViewDown(second, log, true, old(written), debug.Gone())
      ensures marks.Quiet() ==> ceiling.None?
    {
      hide WentTo, Grown, Scanned, ViewDown, Split, NoneAbove, IdsGrow, IsLog;
      ghost var was, wasDebug := main.gens, debug.gens;
      var a, b := Scanner(0, 0, 0, [], None), Scanner(0, 0, 0, [], None);
      NothingScanned(was, main.keep);
      NothingScanned(wasDebug, debug.keep);
      WentRefl(Snap());
      while a.k <= main.keep || (merged && b.k <= debug.keep)
        invariant Valid() && Went() && a.k <= main.keep + 1 && b.k <= debug.keep + 1
        invariant Scanned(a, was, main.gens, main.keep) && Scanned(b, wasDebug, debug.gens, debug.keep)
        invariant marks.Quiet() ==> a.writing.None? && b.writing.None?
        decreases main.keep + 1 - a.k + debug.keep + 1 - b.k
      {
        ghost var before := Snap();
        Others();
        WentGrown(old(Snap()), before);
        WentGrown(before, Snap());
        WentTransitive(old(Snap()), before, Snap());
        WentLength(old(Snap()), Snap());
        ScannedGrows(a, was, before.main, main.gens, main.keep, old(written), before.written);
        ScannedGrows(b, wasDebug, before.debug, debug.gens, debug.keep, old(written), before.written);
        var first: bool := *;
        if b.k > debug.keep || !merged || (first && a.k <= main.keep) {
          a := ScanNext(a, was, main.gens, main.keep, marks.main);
        } else {
          b := ScanNext(b, wasDebug, debug.gens, debug.keep, marks.debug);
        }
      }
      WentGrown(old(Snap()), Snap());
      ScanIsView(a, was, main.gens, main.keep, log, false, old(written));
      recs, second, ceiling := a.recs, b.recs, a.writing;
      if merged { ScanIsView(b, wasDebug, debug.gens, debug.keep, log, true, old(written)); }
      if b.writing.Some? && (ceiling.None? || b.writing.value < ceiling.value) { ceiling := b.writing; }
    }

    /** A poll from a cursor, while others write: what was there comes, or a full page of it. */
    method PollFrom(q: Query, since: nat, marks: Marks) returns (out: seq<Record>, truncated: bool, cursor: nat, ghost p: Poll)
      requires Valid() && (hasDebug || q.minLevel >= INFO)
      modifies this`hasDebug, this`written, this`log, main`gens, debug`gens
      ensures Valid() && Went()
      ensures Faithful(p, log, since) && (p.debug.Some? || q.minLevel >= INFO)
      ensures p.written == old(written) && p.goneMain == main.Gone() && p.goneDebug == debug.Gone()
      ensures var a := Answer(q, p.main, p.debug, since, p.written);
              out == a.out && truncated == a.truncated && cursor == a.cursor
      ensures since <= cursor && (since <= old(written) ==> cursor <= written)
      ensures marks.Quiet() ==> (truncated && |out| == q.limit) || GivenAll(q, log, since, out, old(written), main.Gone(), debug.Gone())
    {
      hide WentTo, IsRead, Ordered, Answer, View;
      var upTo, merged := written, q.minLevel < INFO && hasDebug;
      var items, second := ReadSets(merged, since, marks);
      var debugItems := if merged then Some(second) else None;
      out, truncated, cursor := QueryAfter(q, items, debugItems, since, upTo);
      p := Poll(items, debugItems, upTo, main.Gone(), debug.Gone());
      ReadIsView(main.gens, items, since, upTo, main.Gone(), log, false);
      if merged { ReadIsView(debug.gens, second, since, upTo, debug.Gone(), log, true); }
      WentWritten(old(Snap()), Snap());
      CursorIsWritten(q, log, p, since, old(written), written);
      if marks.Quiet() { QuietPoll(q, log, p, since); }
    }

    /** The first page, while others write. */
    method PollFirst(q: Query, marks: Marks) returns (out: seq<Record>, truncated: bool, cursor: nat)
      requires Valid() && (hasDebug || q.minLevel >= INFO)
      modifies this`hasDebug, this`written, this`log, main`gens, debug`gens
      ensures Valid() && Went() && !truncated && cursor <= written
      ensures NewestPage(q, log, out, cursor, main.Gone(), debug.Gone())
      ensures marks.Quiet() ==> NoneBeyond(q, log, cursor, old(written), main.Gone(), debug.Gone())
    {
      hide WentTo, SetHolds, ReadBack, Query.Matches, NewestPage;
      var upTo, merged := written, q.minLevel < INFO && hasDebug;
      var recs, second, ceiling := ScanSets(merged, marks);
      var f := First(recs, if merged then Some(second) else None, ceiling, upTo);
      out, truncated, cursor := QueryFirst(q, f);
      WentWritten(old(Snap()), Snap());
      FirstPageIsNewest(q, f, log, main.Gone(), debug.Gone(), written);
      if marks.Quiet() { QuietFirst(q, f, log, main.Gone(), debug.Gone()); }
    }

    // ----- following ----------------------------------------------------------------------------

    /** A follower from the start (its first page is the newest records) or from an id it knows, any number of polls,
        each from the cursor of the one before, while others write and rotate at any moment. */
    method Follow(q: Query, start: nat, steps: seq<Marks>) returns (out: seq<Record>, cursor: nat, ghost b: Begun, ghost done: seq<Poll>)
      requires Valid() && (hasDebug || q.minLevel >= INFO) && start <= written
      modifies this`hasDebug, this`written, this`log, main`gens, debug`gens
      ensures Valid() && Given(q, log, start, b, done, out, cursor)
      ensures start <= b.cursor <= cursor <= written
      ensures forall i, j :: 0 <= i < j < |out| ==> out[i].id < out[j].id
      ensures forall r :: r in out ==> r in log && q.Matches(r) && start < r.id <= cursor
      ensures forall r :: r in log && q.Matches(r) && start < r.id <= cursor ==>
                            r in out || Lost(q, done, b.cursor, r) || BeforeFirstPage(q, start, b, r)
      ensures GoneBy(b, done, main.Gone(), debug.Gone(), written)
      ensures (forall i :: 0 <= i < |steps| ==> steps[i].Quiet()) ==> GotOn(q, |steps|, |out|, log, cursor, old(written), main.Gone(), debug.Gone())
    {
      hide Query.Matches, Lost, NewestPage, FaithfulRun, Given, WentTo, Fine, BeforeFirstPage, Faithful, GoneBy, GotOn, NoneBeyond, GivenAll, Answer;
      GotOnBegins(q, log, start, written, main.Gone(), debug.Gone());
      ghost var from := written;
      out, cursor, b, done := [], start, Begun([], start, 0, 0), [];
      FineLog(Snap());
      NothingGiven(q, log, start);
      assert GoneBy(b, done, main.Gone(), debug.Gone(), written) by { GoneLow(main.Gone(), debug.Gone(), start, written); }
      for i := 0 to |steps|
        invariant Valid() && (hasDebug || q.minLevel >= INFO)
        invariant Given(q, log, start, b, done, out, cursor) && cursor <= written
        invariant GoneBy(b, done, main.Gone(), debug.Gone(), written) && start <= cursor
        invariant cursor == 0 ==> done == [] && out == []
        invariant from <= written && ((forall k :: 0 <= k < i ==> steps[k].Quiet()) ==> GotOn(q, i, |out|, log, cursor, from, main.Gone(), debug.Gone()))
      {
        ghost var before := Snap();
        Others();
        WentWritten(before, Snap());
        GivenGrows(q, start, b, done, out, cursor, before, Snap(), main.keep, debug.keep);
        ghost var quiet := forall k :: 0 <= k <= i ==> steps[k].Quiet();
        if quiet { GotOnGrows(q, i, |out|, before, Snap(), cursor, from, main.keep, debug.keep); }
        before := Snap();
        if cursor == 0 {
          var truncated;
          out, truncated, cursor := PollFirst(q, steps[i]);
          WentWritten(before, Snap());
          b := Begun(out, cursor, main.Gone(), debug.Gone());
          FineLog(Snap());
          PageIds(q, log, b);
          GivenFirst(q, log, b);
          GoneFirst(b, written);
          if quiet { GotOnFirst(q, i + 1, |out|, log, cursor, before.written, from, main.Gone(), debug.Gone()); }
        } else {
          var page, truncated, next;
          ghost var p;
          page, truncated, next, p := PollFrom(q, cursor, steps[i]);
          WentWritten(before, Snap());
          GivenGrows(q, start, b, done, out, cursor, before, Snap(), main.keep, debug.keep);
          if quiet {
            GotOnGrows(q, i, |out|, before, Snap(), cursor, from, main.keep, debug.keep);
            FineLog(Snap());
            GotOnMore(q, i, |out|, log, p, cursor, from);
          }
          GivenMore(q, log, start, b, done, out, cursor, p);
          GoneMore(b, done, p, written);
          out, cursor, done := out + page, next, done + [p];
        }
      }
      FineLog(Snap());
      RunIsExact(q, log, start, b, done, out, cursor);
    }
  }
}
