/** One rotated set of log files, opened and read step by step while records are written and files are rotated in
    between. A rotation and the record written after it are one step (both happen under the handler's lock). */
module LogFiles {
  import opened LogFollower

  /** A finished line of a file: a record, or one a crash cut short, whose id was written. */
  datatype Line = Whole(rec: Record) | Torn(tornId: nat)

  type Files = seq<seq<Line>>

  function LineId(line: Line): nat {
    if line.Whole? then line.rec.id else line.tornId
  }

  predicate At(gens: Files, g: int, k: int) {
    0 <= g < |gens| && 0 <= k < |gens[g]|
  }

  predicate Earlier(g: int, k: int, h: int, j: int) {
    g < h || (g == h && k < j)
  }

  /** Ids grow in file order, and only the very first file of a volume can be empty. */
  ghost predicate Ordered(gens: Files) {
    && |gens| > 0
    && (forall g :: 0 < g < |gens| ==> gens[g] != [])
    && IdsGrow(gens)
  }

  ghost predicate IdsGrow(gens: Files) {
    forall g, k, h, j :: At(gens, g, k) && At(gens, h, j) && Earlier(g, k, h, j) ==> LineId(gens[g][k]) < LineId(gens[h][j])
  }

  ghost predicate Holds(gens: Files, r: Record) {
    exists g, k :: At(gens, g, k) && gens[g][k] == Whole(r)
  }

  /** Lines are only ever added, at the end of the newest file or in files after it, with ids above ``floor``. */
  ghost predicate Grown(was: Files, now: Files, floor: int) {
    && 0 < |was| <= |now|
    && (forall g :: 0 <= g < |was| - 1 ==> now[g] == was[g])
    && was[|was| - 1] <= now[|was| - 1]
    && NewAbove(was, now, floor)
  }

  ghost predicate NewAbove(was: Files, now: Files, floor: int) {
    forall g, k :: At(now, g, k) && !At(was, g, k) ==> LineId(now[g][k]) > floor
  }

  /** In the order they are read, the files opened step up by one at most: a name opened later (an older file's) is at
      most one rotation behind the one opened before it, however many rotations fell between. */
  ghost predicate RisesByOne(handles: seq<nat>) {
    forall i :: 0 <= i < |handles| - 1 ==> handles[i + 1] <= handles[i] + 1
  }

  lemma RisesFurther(g: nat, handles: seq<nat>)
    requires RisesByOne(handles) && (handles != [] ==> handles[0] <= g + 1)
    ensures RisesByOne([g] + handles)
  {
    var all := [g] + handles;
    forall i | 0 <= i < |all| - 1 ensures all[i + 1] <= all[i] + 1 {
      assert i > 0 ==> handles[i - 1 + 1] <= handles[i - 1] + 1;
    }
  }

  lemma GrownTransitive(a: Files, b: Files, c: Files, floor: int)
    requires Grown(a, b, floor) && Grown(b, c, floor)
    ensures Grown(a, c, floor)
  {
  }

  lemma GrownRefl(gens: Files, floor: int)
    requires |gens| > 0
    ensures Grown(gens, gens, floor)
  {
  }

  lemma GrownLower(was: Files, now: Files, floor: int, lower: int)
    requires Grown(was, now, floor) && lower <= floor
    ensures Grown(was, now, lower)
  {
  }

  lemma GrownFile(was: Files, now: Files, g: nat, floor: int)
    requires Grown(was, now, floor) && g < |was|
    ensures g < |now| && was[g] <= now[g] && (g < |was| - 1 ==> now[g] == was[g])
  {
  }

  /** The id of the first line that has one, as the reader tests it: 0 for a file with none. */
  function FirstId(file: seq<Line>): nat {
    if file == [] then 0 else LineId(file[0])
  }

  /** The newest id that is off the disk, where ``keep`` rotated files stay beside the newest (0: none is). */
  function GoneFrom(gens: Files, keep: nat): nat {
    var oldest := |gens| - 1 - keep;
    if oldest > 0 && gens[oldest - 1] != [] then LineId(gens[oldest - 1][|gens[oldest - 1]| - 1]) else 0
  }

  lemma GoneGrows(was: Files, now: Files, keep: nat, floor: int)
    requires Ordered(was) && Ordered(now) && Grown(was, now, floor)
    ensures GoneFrom(was, keep) <= GoneFrom(now, keep)
  {
    var g, h := |was| - 2 - keep, |now| - 2 - keep;
    if g >= 0 && was[g] != [] && g < h {
      assert At(now, g, |was[g]| - 1) && At(now, h, |now[h]| - 1) && Earlier(g, |was[g]| - 1, h, |now[h]| - 1);
    }
  }

  lemma OneLineMore(gens: Files, line: Line, full: bool)
    requires Ordered(gens) && forall g, k :: At(gens, g, k) ==> LineId(gens[g][k]) < LineId(line)
    ensures var now := if full then gens + [[line]] else gens[|gens| - 1 := gens[|gens| - 1] + [line]];
            && Ordered(now) && Grown(gens, now, LineId(line) - 1)
            && (forall g, k :: At(now, g, k) ==> (At(gens, g, k) && now[g][k] == gens[g][k]) || now[g][k] == line)
            && (exists g, k :: At(now, g, k) && now[g][k] == line)
  {
    var now := if full then gens + [[line]] else gens[|gens| - 1 := gens[|gens| - 1] + [line]];
    var g, k := |now| - 1, if full then 0 else |gens[|gens| - 1]|;
    assert At(now, g, k) && now[g][k] == line;
    assert forall h, j :: At(now, h, j) ==> (h == g && j == k) || (At(gens, h, j) && now[h][j] == gens[h][j] && Earlier(h, j, g, k));
  }

  class Stream {
    /** Every file this set ever had, oldest first: the last is the one written, the ``keep`` before it are
        its rotated names, anything older is off the disk. */
    var gens: Files
    const keep: nat

    constructor (keep: nat)
      ensures Ordered(gens) && gens == [[]] && this.keep == keep
    {
      this.keep, gens := keep, [[]];
    }

    /** The newest id of a file that is off the disk (0: none is). */
    ghost function Gone(): nat
      reads this
    {
      GoneFrom(gens, keep)
    }

    /** Write one line, into a fresh file when the current one is full. */
    method Write(line: Line, full: bool)
      requires Ordered(gens)
      requires forall g, k :: At(gens, g, k) ==> LineId(gens[g][k]) < LineId(line)
      modifies this`gens
      ensures Ordered(gens) && Grown(old(gens), gens, LineId(line) - 1)
      ensures |gens| == |old(gens)| + (if full then 1 else 0)
      ensures forall g, k :: At(gens, g, k) ==> (At(old(gens), g, k) && gens[g][k] == old(gens)[g][k]) || gens[g][k] == line
      ensures exists g, k :: At(gens, g, k) && gens[g][k] == line
    {
      OneLineMore(gens, line, full);
      gens := if full then gens + [[line]] else gens[|gens| - 1 := gens[|gens| - 1] + [line]];
    }
  }

  // ----- reading, a step at a time --------------------------------------------------------------

  /** A reader of one set: the files opened so far, in the order they will be read, and ``k``, the name to open next;
      or the files being read, ``next`` of them done, with the records so far. ``top`` and ``upTo`` are the newest file
      and line that were read. */
  datatype Reader =
    | Opening(k: nat, handles: seq<nat>)
    | Reading(handles: seq<nat>, next: nat, items: seq<Item>, doneTo: nat, top: nat, upTo: nat)

  predicate Through(r: Reader) {
    r.Reading? && r.next == |r.handles|
  }

  /** What is left to open and to read, at most. */
  function Left(r: Reader, keep: nat): int {
    if r.Opening? then 2 * keep + 4 - r.k else |r.handles| - r.next
  }

  /** Files opened while the set grew from ``was`` to ``gens``: only the one opened first can be the newest. */
  ghost predicate Opened(handles: seq<nat>, was: Files, gens: Files) {
    && RisesByOne(handles) && |gens| > 0
    && (forall i :: 0 <= i < |handles| ==> handles[i] < |gens|)
    && (forall i :: 0 <= i < |handles| - 1 ==> handles[i] < |gens| - 1)
    && (handles != [] ==> |was| - 1 <= handles[|handles| - 1])
  }

  /** Nothing on the disk and above ``since`` is older than the first file read. */
  ghost predicate Reaches(handles: seq<nat>, gens: Files, keep: nat, since: nat) {
    handles != [] && handles[0] < |gens|
    && (handles[0] == 0 || handles[0] <= |gens| - 1 - keep || FirstId(gens[handles[0]]) <= since)
  }

  /** How far the records read go: past the newest file's lines of when the read began, once everything is read. */
  ghost predicate Covered(next: nat, count: nat, was: Files, gens: Files, top: nat, upTo: nat) {
    && top < |gens| && upTo <= |gens[top]|
    && (next < count ==> top < |gens| - 1 && upTo == |gens[top]|)
    && (next == count && top < |was| ==> |was[top]| <= upTo)
  }

  /** What holds of a reader that began when the set was ``was``, between any two steps. */
  ghost predicate Good(r: Reader, was: Files, gens: Files, keep: nat, since: nat) {
    && Opened(r.handles, was, gens)
    && match r
       case Opening(k, handles) =>
         && |handles| <= k <= keep && (handles == [] <==> k == 0)
         && (handles != [] ==> handles[0] == 0 || handles[0] + k <= |gens|)
       case Reading(handles, next, items, doneTo, top, upTo) =>
         && Reaches(handles, gens, keep, since) && next <= |handles| <= keep + 1
         && handles[0] <= top < |gens| && Standing(items, doneTo, since)
         && IsWindow(gens, items, since, handles[0], top, upTo)
         && (if next == 0 then items == [] && top == handles[0] && upTo == 0
             else handles[next - 1] <= top && Covered(next, |handles|, was, gens, top, upTo))
  }

  /** Other threads write and rotate: a reader stays what it is. */
  lemma GoodGrows(r: Reader, was: Files, gens: Files, now: Files, keep: nat, since: nat, floor: int)
    requires Good(r, was, gens, keep, since) && Ordered(gens) && Grown(gens, now, floor)
    ensures Good(r, was, now, keep, since)
  {
    hide IdsGrow, NewAbove;
    if r.Reading? {
      GrownFile(gens, now, r.handles[0], floor);
      GrownFile(gens, now, r.top, floor);
      assert r.handles[0] > 0 ==> gens[r.handles[0]] != [];
      if r.next > 0 { WindowGrows(gens, now, r.items, since, r.handles[0], r.top, r.upTo, floor); }
    }
  }

  /** Open the file that has name ``k`` now, unless there is none; the file that holds ``since`` is the last opened. */
  method OpenNext(r: Reader, ghost was: Files, gens: Files, keep: nat, since: nat) returns (r': Reader)
    requires Good(r, was, gens, keep, since) && r.Opening? && Ordered(gens) && |was| <= |gens|
    ensures Good(r', was, gens, keep, since) && Left(r', keep) < Left(r, keep)
    ensures r.k < |gens| ==> r'.handles == [|gens| - 1 - r.k] + r.handles
    ensures r.k >= |gens| ==> r'.handles == r.handles
    ensures r'.Reading? <==> r.k == keep || (r.k < |gens| && FirstId(gens[|gens| - 1 - r.k]) <= since)
  {
    hide IdsGrow;
    var handles, found := r.handles, false;
    if r.k < |gens| {
      var g := |gens| - 1 - r.k;
      RisesFurther(g, handles);
      handles, found := [g] + handles, FirstId(gens[g]) <= since;
      assert forall i :: 0 < i < |handles| ==> handles[i] == r.handles[i - 1];
    }
    if found || r.k == keep {
      r' := Reading(handles, 0, [], since, handles[0], 0);
    } else {
      r' := Opening(r.k + 1, handles);
    }
  }

  /** Read the next open file: all of it, or, when it was the newest, at least what it held when the read began. */
  method ReadNext(r: Reader, was: Files, gens: Files, keep: nat, since: nat) returns (r': Reader)
    requires Good(r, was, gens, keep, since) && r.Reading? && !Through(r) && Ordered(gens) && |was| <= |gens|
    requires |was| > 0 && |was[|was| - 1]| <= |gens[|was| - 1]|
    ensures Good(r', was, gens, keep, since) && Left(r', keep) < Left(r, keep)
    ensures r'.Reading? && r'.handles == r.handles && r.items <= r'.items
  {
    hide IdsGrow;
    var g, last := r.handles[r.next], r.next == |r.handles| - 1;
    assert r.next > 0 ==> r.handles[r.next - 1 + 1] <= r.handles[r.next - 1] + 1;
    var n: int := *;
    if n < 0 || n > |gens[g]| || !last || (g == |was| - 1 && n < |was[g]|) { n := |gens[g]|; }
    LinesAscend(gens, g, n);
    var items, doneTo := ReadLines(gens[g][..n], r.items, r.doneTo, since);
    if r.next > 0 && g <= r.top {
      WindowAgain(gens, r.items, items, since, r.handles[0], r.top, r.upTo, g, n, r.doneTo);
      r' := Reading(r.handles, r.next + 1, items, doneTo, r.top, r.upTo);
    } else {
      WindowNext(gens, r.items, items, since, r.handles[0], r.top, r.upTo, g, n, r.doneTo);
      r' := Reading(r.handles, r.next + 1, items, doneTo, g, n);
    }
  }

  lemma NothingOpened(gens: Files, keep: nat, since: nat)
    requires |gens| > 0
    ensures Good(Opening(0, []), gens, gens, keep, since)
  {
  }

  method Step(r: Reader, was: Files, gens: Files, keep: nat, since: nat, ghost floor: int) returns (r': Reader)
    requires Good(r, was, gens, keep, since) && !Through(r) && Ordered(gens) && Grown(was, gens, floor)
    ensures Good(r', was, gens, keep, since) && 0 <= Left(r', keep) < Left(r, keep)
  {
    hide IdsGrow;
    GrownFile(was, gens, |was| - 1, floor);
    if r.Opening? {
      r' := OpenNext(r, was, gens, keep, since);
    } else {
      r' := ReadNext(r, was, gens, keep, since);
    }
  }

  /** Records of the set in id order, none left out below the last one read, nor any written before the read,
      but for those off the disk. */
  ghost predicate IsRead(gens: Files, items: seq<Item>, since: nat, written: nat, gone: nat) {
    && ReadOut(items, since)
    && (forall i :: 0 <= i < |items| && items[i].Read? ==> Holds(gens, items[i].rec))
    && (forall g, k :: At(gens, g, k) && gens[g][k].Whole? && since < LineId(gens[g][k]) && gone < LineId(gens[g][k])
                       && (LineId(gens[g][k]) <= written || exists j :: 0 <= j < |items| && items[j].Read? && LineId(gens[g][k]) <= items[j].rec.id)
                       ==> Read(gens[g][k].rec) in items)
  }

  /** The records a reader ends with; a line being written at the end leaves a mark. ``writing``: the id that stands in
      such a line, 0 for none. */
  method Result(r: Reader, ghost was: Files, gens: Files, keep: nat, since: nat, ghost written: nat, writing: Option<nat>) returns (items: seq<Item>)
    requires Good(r, was, gens, keep, since) && Through(r) && Ordered(gens) && Grown(was, gens, written)
    ensures IsRead(gens, items, since, written, GoneFrom(gens, keep))
    ensures writing.None? ==> AllRead(items)
  {
    hide Ordered, Grown, IsWindow, GoneFrom, IsRead;
    items := r.items;
    if writing.Some? {
      items := items + [BeingWritten(if writing.value > r.doneTo then writing.value else r.doneTo + 1)];
    }
    WindowIsRead(was, gens, r.items, items, since, written, r.handles, r.top, r.upTo, keep);
  }

  lemma WindowIsRead(was: Files, gens: Files, sofar: seq<Item>, items: seq<Item>, since: nat, written: nat, handles: seq<nat>, top: nat, upTo: nat, keep: nat)
    requires Ordered(gens) && Grown(was, gens, written) && Reaches(handles, gens, keep, since)
    requires ReadOut(items, since) && sofar <= items && |items| <= |sofar| + 1 && (|items| > |sofar| ==> items[|sofar|].BeingWritten?)
    requires IsWindow(gens, sofar, since, handles[0], top, upTo) && AllRead(sofar)
    requires |was| - 1 <= top < |gens| && Covered(|handles|, |handles|, was, gens, top, upTo)
    ensures IsRead(gens, items, since, written, GoneFrom(gens, keep))
  {
    assert forall i :: 0 <= i < |items| && items[i].Read? ==> i < |sofar| && items[i] == sofar[i];
    assert forall x :: x in sofar ==> x in items;
    forall i | 0 <= i < |items| && items[i].Read? ensures Holds(gens, items[i].rec) {
      var g, k :| At(gens, g, k) && Earlier(g, k, top, upTo) && gens[g][k] == Whole(sofar[i].rec);
    }
    forall g, k | At(gens, g, k) && gens[g][k].Whole? && since < LineId(gens[g][k]) && GoneFrom(gens, keep) < LineId(gens[g][k])
                  && (LineId(gens[g][k]) <= written || exists j :: 0 <= j < |items| && items[j].Read? && LineId(gens[g][k]) <= items[j].rec.id)
      ensures Read(gens[g][k].rec) in items
    {
      if g < handles[0] { OlderIsGone(gens, since, handles, keep, g, k); }
      if !Earlier(g, k, top, upTo) {
        LaterIsUnread(was, gens, sofar, since, written, handles[0], top, upTo, g, k);
      }
    }
  }

  /** A line of a file older than the first one opened was read before, or is off the disk. */
  lemma OlderIsGone(gens: Files, since: nat, handles: seq<nat>, keep: nat, g: int, k: int)
    requires Ordered(gens) && Reaches(handles, gens, keep, since) && At(gens, g, k) && g < handles[0]
    ensures LineId(gens[g][k]) <= since || LineId(gens[g][k]) <= GoneFrom(gens, keep)
  {
    var first := handles[0];
    if FirstId(gens[first]) <= since {
      assert At(gens, first, 0) && Earlier(g, k, first, 0);
    } else {
      OldFileIsGone(gens, keep, g, k);
    }
  }

  lemma OldFileIsGone(gens: Files, keep: nat, g: int, k: int)
    requires Ordered(gens) && At(gens, g, k) && g < |gens| - 1 - keep
    ensures LineId(gens[g][k]) <= GoneFrom(gens, keep)
  {
    var oldest := |gens| - 1 - keep;
    var last := |gens[oldest - 1]| - 1;
    assert oldest - 1 > g ==> gens[oldest - 1] != [];
    assert At(gens, oldest - 1, last) && (Earlier(g, k, oldest - 1, last) || (g == oldest - 1 && k == last));
  }

  /** A line after everything read was not there when the read began, and is newer than all of it. */
  lemma LaterIsUnread(was: Files, gens: Files, items: seq<Item>, since: nat, written: nat, first: nat, top: nat, upTo: nat, g: int, k: int)
    requires Ordered(gens) && Grown(was, gens, written) && AllRead(items)
    requires IsWindow(gens, items, since, first, top, upTo)
    requires |was| - 1 <= top && (top < |was| ==> |was[top]| <= upTo)
    requires At(gens, g, k) && !Earlier(g, k, top, upTo)
    ensures LineId(gens[g][k]) > written
    ensures forall j :: 0 <= j < |items| ==> items[j].rec.id < LineId(gens[g][k])
  {
    assert !At(was, g, k);
    forall j | 0 <= j < |items| ensures items[j].rec.id < LineId(gens[g][k]) {
      var h, l :| At(gens, h, l) && Earlier(h, l, top, upTo) && gens[h][l] == Whole(items[j].rec);
      assert Earlier(h, l, g, k);
    }
  }

  /** A read of one set is a faithful view of the log whose records this set holds. */
  lemma ReadIsView(gens: Files, items: seq<Item>, since: nat, written: nat, gone: nat, log: seq<Record>, debugSet: bool)
    requires IsRead(gens, items, since, written, gone)
    requires forall r :: r in log && (r.level < INFO <==> debugSet) <==> Holds(gens, r)
    ensures View(items, log, debugSet, since, written, gone)
  {
    forall r | r in log && (r.level < INFO <==> debugSet) && since < r.id && gone < r.id
               && (r.id <= written || exists j :: 0 <= j < |items| && items[j].Read? && r.id <= items[j].rec.id)
      ensures Read(r) in items
    {
      assert Holds(gens, r);
      var g, k :| At(gens, g, k) && gens[g][k] == Whole(r);
    }
    forall i | 0 <= i < |items| && items[i].Read?
      ensures items[i].rec in log && (items[i].rec.level < INFO <==> debugSet)
    {
      assert Holds(gens, items[i].rec);
    }
  }

  /** Were the file a rotation opens ever seen empty, the test for ``since`` would stop there: a record on the disk, in
      the file before it, is not read, and the cursor passes it. */
  lemma EmptyFreshFileHidesRecords(q: Query, since: nat, r: Record, keep: nat)
    requires since < r.id && keep > 0
    ensures var gens := [[Whole(r)], []];
            && Holds(gens, r) && IdsGrow(gens) && GoneFrom(gens, keep) < r.id
            && FirstId(gens[|gens| - 1]) <= since
            && var a := Answer(q, [], None, since, r.id); a.cursor == r.id && r !in a.out
  {
    var gens := [[Whole(r)], []];
    assert At(gens, 0, 0) && gens[0][0] == Whole(r);
  }

  /** Where a read stands: the records so far, and the id of the last. */
  ghost predicate Standing(items: seq<Item>, doneTo: nat, since: nat) {
    AllRead(items) && ReadOut(items, since) && doneTo == (if items == [] then since else IdOf(items[|items| - 1]))
  }

  /** ``items`` continues ``sofar`` with the records of ``lines`` above ``doneTo``. */
  ghost predicate Extends(sofar: seq<Item>, items: seq<Item>, doneTo: nat, lines: seq<Line>) {
    && sofar <= items && AllRead(items)
    && (forall k :: 0 <= k < |lines| && lines[k].Whole? && LineId(lines[k]) > doneTo ==> Read(lines[k].rec) in items)
    && (forall i :: |sofar| <= i < |items| ==> exists k :: 0 <= k < |lines| && lines[k] == Whole(items[i].rec))
  }

  ghost predicate Ascending(lines: seq<Line>) {
    forall i, j :: 0 <= i < j < |lines| ==> LineId(lines[i]) < LineId(lines[j])
  }

  lemma LinesAscend(gens: Files, g: nat, n: nat)
    requires Ordered(gens) && g < |gens| && n <= |gens[g]|
    ensures Ascending(gens[g][..n])
  {
    var lines := gens[g][..n];
    forall a, b | 0 <= a < b < |lines| ensures LineId(lines[a]) < LineId(lines[b]) {
      assert At(gens, g, a) && At(gens, g, b) && Earlier(g, a, g, b);
    }
  }

  /** Every new record of a file, none read before, torn lines left out. */
  method ReadLines(lines: seq<Line>, items0: seq<Item>, doneTo0: nat, since: nat) returns (items: seq<Item>, doneTo: nat)
    requires Standing(items0, doneTo0, since) && Ascending(lines)
    ensures Standing(items, doneTo, since) && Extends(items0, items, doneTo0, lines)
  {
    items, doneTo := items0, doneTo0;
    for j := 0 to |lines|
      invariant Standing(items, doneTo, since) && items0 <= items
      invariant j < |lines| ==> doneTo < LineId(lines[j]) || doneTo == doneTo0
      invariant forall k :: j < k < |lines| ==> doneTo < LineId(lines[k]) || doneTo == doneTo0
      invariant forall k :: 0 <= k < j && lines[k].Whole? && LineId(lines[k]) > doneTo0 ==> Read(lines[k].rec) in items
      invariant forall i :: |items0| <= i < |items| ==> exists k :: 0 <= k < j && lines[k] == Whole(items[i].rec)
    {
      var line := lines[j];
      if LineId(line) > doneTo && line.Whole? {
        items, doneTo := items + [Read(line.rec)], line.rec.id;
        assert items[|items| - 1] == Read(lines[j].rec);
      }
    }
  }

  /** Reading the next file moves the window on. */
  lemma WindowNext(gens: Files, sofar: seq<Item>, items: seq<Item>, since: nat, first: nat, top: nat, upTo: nat, g: nat, n: nat, doneTo: nat)
    requires Ordered(gens) && IsWindow(gens, sofar, since, first, top, upTo) && Standing(sofar, doneTo, since)
    requires g < |gens| && n <= |gens[g]| && first <= g
    requires (g == first == top && upTo == 0) || (g == top + 1 && upTo == |gens[top]|)
    requires Extends(sofar, items, doneTo, gens[g][..n])
    ensures IsWindow(gens, items, since, first, g, n)
  {
    forall i | 0 <= i < |items|
      ensures exists h, k :: At(gens, h, k) && Earlier(h, k, g, n) && gens[h][k] == Whole(items[i].rec)
    {
      if i < |sofar| {
        assert sofar[i] == items[i];
        var h, k :| At(gens, h, k) && Earlier(h, k, top, upTo) && gens[h][k] == Whole(sofar[i].rec);
        assert Earlier(h, k, g, n);
      } else {
        var k :| 0 <= k < n && gens[g][..n][k] == Whole(items[i].rec);
        assert At(gens, g, k) && Earlier(g, k, g, n);
      }
    }
    forall h, k | At(gens, h, k) && InWindow(first, g, n, h, k) && gens[h][k].Whole? && LineId(gens[h][k]) > since
      ensures Read(gens[h][k].rec) in items
    {
      if h == g {
        if sofar != [] {
          var m, l :| At(gens, m, l) && Earlier(m, l, top, upTo) && gens[m][l] == Whole(sofar[|sofar| - 1].rec);
          assert Earlier(m, l, g, k);
        }
        assert gens[g][..n][k] == gens[g][k];
      } else {
        assert InWindow(first, top, upTo, h, k);
        assert Read(gens[h][k].rec) in sofar;
      }
    }
  }

  /** A file not newer than those read, opened once more under the name a rotation gave it, adds nothing that is
      missing. */
  lemma WindowAgain(gens: Files, sofar: seq<Item>, items: seq<Item>, since: nat, first: nat, top: nat, upTo: nat, g: nat, n: nat, doneTo: nat)
    requires IsWindow(gens, sofar, since, first, top, upTo) && AllRead(sofar)
    requires g <= top < |gens| && upTo == |gens[top]| && n <= |gens[g]|
    requires Extends(sofar, items, doneTo, gens[g][..n])
    ensures IsWindow(gens, items, since, first, top, upTo)
  {
    forall i | 0 <= i < |items|
      ensures exists h, k :: At(gens, h, k) && Earlier(h, k, top, upTo) && gens[h][k] == Whole(items[i].rec)
    {
      if i < |sofar| {
        assert sofar[i] == items[i];
      } else {
        var k :| 0 <= k < n && gens[g][..n][k] == Whole(items[i].rec);
        assert At(gens, g, k) && Earlier(g, k, top, upTo);
      }
    }
  }

  ghost predicate AllRead(items: seq<Item>) {
    forall i :: 0 <= i < |items| ==> items[i].Read?
  }

  ghost predicate InWindow(first: nat, top: nat, upTo: nat, g: int, k: int) {
    first <= g && Earlier(g, k, top, upTo)
  }

  /** The records read are whole lines up to line ``upTo`` of ``top``, and every one above ``since`` from file
      ``first`` up to there is among them. */
  ghost predicate IsWindow(gens: Files, items: seq<Item>, since: nat, first: nat, top: nat, upTo: nat) {
    && (forall i :: 0 <= i < |items| && items[i].Read? ==>
          exists g, k :: At(gens, g, k) && Earlier(g, k, top, upTo) && gens[g][k] == Whole(items[i].rec))
    && (forall g, k :: At(gens, g, k) && InWindow(first, top, upTo, g, k) && gens[g][k].Whole? && LineId(gens[g][k]) > since ==>
          Read(gens[g][k].rec) in items)
  }

  lemma WindowGrows(was: Files, now: Files, items: seq<Item>, since: nat, first: nat, top: nat, upTo: nat, floor: int)
    requires IsWindow(was, items, since, first, top, upTo) && Grown(was, now, floor) && AllRead(items)
    requires top < |was| && upTo <= |was[top]|
    ensures IsWindow(now, items, since, first, top, upTo)
  {
    forall i | 0 <= i < |items|
      ensures exists g, k :: At(now, g, k) && Earlier(g, k, top, upTo) && now[g][k] == Whole(items[i].rec)
    {
      var g, k :| At(was, g, k) && Earlier(g, k, top, upTo) && was[g][k] == Whole(items[i].rec);
      assert At(now, g, k) && now[g][k] == was[g][k];
    }
    forall g, k | At(now, g, k) && InWindow(first, top, upTo, g, k) && now[g][k].Whole? && LineId(now[g][k]) > since
      ensures Read(now[g][k].rec) in items
    {
      assert At(was, g, k) && now[g][k] == was[g][k];
    }
  }

  // ----- reading back from the newest file -------------------------------------------------------

  /** A reader that takes the files newest first: ``k`` is the name to read next, ``last`` the file read last, ``low``
      the oldest file that counts, and ``recs`` the records so far, newest first. ``writing``: the id of a line of the
      newest file that was not yet whole. */
  datatype Scanner = Scanner(k: nat, last: nat, low: nat, recs: seq<Record>, writing: Option<nat>)

  ghost predicate Descending(recs: seq<Record>) {
    forall i, j :: 0 <= i < j < |recs| ==> recs[i].id > recs[j].id
  }

  predicate Below(recs: seq<Record>, id: nat) {
    recs == [] || id < recs[|recs| - 1].id
  }

  /** Every whole line from file ``low`` on that was there when the read began, or is not newer than what was read
      first, is among the records. */
  ghost predicate Collected(recs: seq<Record>, was: Files, gens: Files, low: nat) {
    forall g, k :: At(gens, g, k) && gens[g][k].Whole? && low <= g
                   && (At(was, g, k) || (recs != [] && LineId(gens[g][k]) <= recs[0].id))
                   ==> gens[g][k].rec in recs
  }

  ghost predicate FromFiles(recs: seq<Record>, gens: Files, low: nat) {
    forall r :: r in recs ==> exists g, k :: At(gens, g, k) && low <= g && gens[g][k] == Whole(r)
  }

  ghost predicate Scanned(s: Scanner, was: Files, gens: Files, keep: nat) {
    && s.k <= keep + 1 && Descending(s.recs)
    && (s.k == 0 ==> s.recs == [])
    && (s.k > 0 ==> s.low <= s.last < |gens| && (s.last == 0 || s.last + s.k <= |gens|)
                    && Collected(s.recs, was, gens, s.low) && FromFiles(s.recs, gens, s.low))
  }

  lemma NewIsNewer(gens: Files, now: Files, h: int, j: int, g: int, k: int, floor: int)
    requires Ordered(now) && Grown(gens, now, floor) && At(gens, h, j) && At(now, g, k) && !At(gens, g, k)
    ensures LineId(gens[h][j]) < LineId(now[g][k])
  {
    assert At(now, h, j) && now[h][j] == gens[h][j] && Earlier(h, j, g, k);
  }

  lemma ScannedGrows(s: Scanner, was: Files, gens: Files, now: Files, keep: nat, lower: int, floor: int)
    requires Scanned(s, was, gens, keep) && Ordered(gens) && Ordered(now) && Grown(gens, now, floor)
    requires Grown(was, gens, lower)
    ensures Scanned(s, was, now, keep)
  {
    if s.k > 0 {
      forall r | r in s.recs ensures exists g, k :: At(now, g, k) && s.low <= g && now[g][k] == Whole(r) {
        var g, k :| At(gens, g, k) && s.low <= g && gens[g][k] == Whole(r);
        assert At(now, g, k) && now[g][k] == gens[g][k];
      }
      forall g, k | At(now, g, k) && now[g][k].Whole? && s.low <= g
                    && (At(was, g, k) || (s.recs != [] && LineId(now[g][k]) <= s.recs[0].id))
        ensures now[g][k].rec in s.recs
      {
        if At(gens, g, k) {
          assert now[g][k] == gens[g][k];
        } else {
          assert s.recs[0] in s.recs;
          var h, j :| At(gens, h, j) && gens[h][j] == Whole(s.recs[0]);
          NewIsNewer(gens, now, h, j, g, k, floor);
        }
      }
    }
  }

  /** The whole lines of a file below what was read, newest first. */
  method ReadBackLines(lines: seq<Line>, recs0: seq<Record>) returns (recs: seq<Record>)
    requires Ascending(lines) && Descending(recs0)
    ensures recs0 <= recs && Descending(recs)
    ensures forall k :: 0 <= k < |lines| && lines[k].Whole? && Below(recs0, LineId(lines[k])) ==> lines[k].rec in recs
    ensures forall i :: |recs0| <= i < |recs| ==> Whole(recs[i]) in lines && Below(recs0, recs[i].id)
  {
    recs := recs0;
    for n := |lines| downto 0
      invariant recs0 <= recs && Descending(recs)
      invariant forall k :: n <= k < |lines| && lines[k].Whole? && Below(recs0, LineId(lines[k])) ==> lines[k].rec in recs
      invariant forall i :: |recs0| <= i < |recs| ==> Whole(recs[i]) in lines[n..] && Below(recs0, recs[i].id)
    {
      assert lines[n..] == [lines[n]] + lines[n + 1..];
      if lines[n].Whole? && Below(recs, lines[n].rec.id) {
        recs := recs + [lines[n].rec];
      }
    }
  }

  /** Read the file that has name ``k`` now, unless there is none. ``writing``: as for ``Result``, for the newest file. */
  method ScanNext(s: Scanner, ghost was: Files, gens: Files, keep: nat, writing: Option<nat>) returns (s': Scanner)
    requires Scanned(s, was, gens, keep) && s.k <= keep && Ordered(gens) && 0 < |was| <= |gens|
    ensures Scanned(s', was, gens, keep) && s'.k == s.k + 1 && s.recs <= s'.recs
    ensures writing.None? ==> s'.writing == s.writing
  {
    if s.k >= |gens| {
      return s.(k := s.k + 1);
    }
    var g := |gens| - 1 - s.k;
    assert gens[g][..|gens[g]|] == gens[g];
    LinesAscend(gens, g, |gens[g]|);
    var recs := ReadBackLines(gens[g], s.recs);
    var low := if s.k == 0 || g < s.low || (s.recs == [] && recs != []) then g else s.low;
    ScanStep(s, was, gens, keep, g, recs, low);
    s' := Scanner(s.k + 1, g, low, recs, s.writing);
    if s.k == 0 && writing.Some? {
      if writing.value > 0 {
        s' := s'.(writing := writing);
      } else if recs != [] {
        s' := s'.(writing := Some(recs[0].id + 1));
      }
    }
  }

  lemma ScanStep(s: Scanner, was: Files, gens: Files, keep: nat, g: nat, recs: seq<Record>, low: nat)
    requires Scanned(s, was, gens, keep) && Ordered(gens) && 0 < |was| <= |gens| && s.k < |gens| && g == |gens| - 1 - s.k
    requires s.recs <= recs && Descending(recs)
    requires forall k :: 0 <= k < |gens[g]| && gens[g][k].Whole? && Below(s.recs, LineId(gens[g][k])) ==> gens[g][k].rec in recs
    requires forall i :: |s.recs| <= i < |recs| ==> Whole(recs[i]) in gens[g] && Below(s.recs, recs[i].id)
    requires low == if s.k == 0 || g < s.low || (s.recs == [] && recs != []) then g else s.low
    ensures Collected(recs, was, gens, low) && FromFiles(recs, gens, low)
  {
    forall r | r in recs ensures exists h, k :: At(gens, h, k) && low <= h && gens[h][k] == Whole(r) {
      var i :| 0 <= i < |recs| && recs[i] == r;
      if i < |s.recs| {
        assert s.recs[i] == r;
        var h, k :| At(gens, h, k) && s.low <= h && gens[h][k] == Whole(r);
      } else {
        var k :| 0 <= k < |gens[g]| && gens[g][k] == Whole(r);
        assert At(gens, g, k);
      }
    }
    forall h, k | At(gens, h, k) && gens[h][k].Whole? && low <= h
                  && (At(was, h, k) || (recs != [] && LineId(gens[h][k]) <= recs[0].id))
      ensures gens[h][k].rec in recs
    {
      CollectedStep(s, was, gens, keep, g, recs, low, h, k);
    }
  }

  lemma CollectedStep(s: Scanner, was: Files, gens: Files, keep: nat, g: nat, recs: seq<Record>, low: nat, h: int, k: int)
    requires Scanned(s, was, gens, keep) && Ordered(gens) && 0 < |was| <= |gens| && s.k < |gens| && g == |gens| - 1 - s.k
    requires s.recs <= recs && Descending(recs)
    requires forall k :: 0 <= k < |gens[g]| && gens[g][k].Whole? && Below(s.recs, LineId(gens[g][k])) ==> gens[g][k].rec in recs
    requires forall i :: |s.recs| <= i < |recs| ==> Whole(recs[i]) in gens[g] && Below(s.recs, recs[i].id)
    requires low == if s.k == 0 || g < s.low || (s.recs == [] && recs != []) then g else s.low
    requires At(gens, h, k) && gens[h][k].Whole? && low <= h
    requires At(was, h, k) || (recs != [] && LineId(gens[h][k]) <= recs[0].id)
    ensures gens[h][k].rec in recs
  {
    if s.recs == [] {
      if h > g && recs != [] {
        var j :| 0 <= j < |gens[g]| && gens[g][j] == Whole(recs[0]);
        assert At(gens, g, j) && Earlier(g, j, h, k);
      }
    } else {
      assert recs[0] == s.recs[0];
      if h < s.low {
        var last := s.recs[|s.recs| - 1];
        var m, j :| At(gens, m, j) && s.low <= m && gens[m][j] == Whole(last);
        assert Earlier(h, k, m, j);
      } else {
        assert gens[h][k].rec in s.recs;
        assert forall r :: r in s.recs ==> r in recs;
      }
    }
  }
}
