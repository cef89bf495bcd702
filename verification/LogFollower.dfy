/** Reading the log as a follower does: two sets of files whose ids are one sequence, merged by id, a page at a
    time from a cursor. What it has to agree with is the id-ordered log, filtered. */
module LogFollower {
  datatype Option<+T> = None | Some(value: T)

  datatype Record = Record(id: nat, level: int, logger: string, message: string)

  const INFO := 20

  /** One record read, or the mark of a last line that is still being written. */
  datatype Item = Read(rec: Record) | BeingWritten(at: nat)

  /** ``text`` and ``keep`` are arbitrary predicates on a record. */
  datatype Query = Query(minLevel: int, prefixes: seq<string>, text: Record -> bool, keep: Record -> bool, limit: nat) {
    /** The level and logger filters. */
    predicate Candidate(r: Record) {
      r.level >= minLevel && (prefixes == [] || exists i :: 0 <= i < |prefixes| && prefixes[i] <= r.logger)
    }

    predicate Matches(r: Record) {
      Candidate(r) && keep(r) && text(r)
    }
  }

  datatype Page = Page(out: seq<Record>, truncated: bool, stopped: bool, cursor: nat)

  function IdOf(item: Item): nat {
    if item.Read? then item.rec.id else item.at
  }

  ghost predicate Increasing(items: seq<Item>) {
    forall i, j :: 0 <= i < j < |items| ==> IdOf(items[i]) < IdOf(items[j])
  }

  /** A set of files read oldest first: ids grow, and only the end can be a line still being written. */
  ghost predicate ReadOut(items: seq<Item>, since: nat) {
    && Increasing(items)
    && (forall i :: 0 <= i < |items| ==> IdOf(items[i]) > since)
    && (forall i :: 0 <= i < |items| - 1 ==> items[i].Read?)
  }

  function Merge(a: seq<Item>, b: seq<Item>): (m: seq<Item>)
    ensures |m| == |a| + |b|
  {
    if a == [] then b
    else if b == [] then a
    else if IdOf(b[0]) < IdOf(a[0]) then [b[0]] + Merge(a, b[1..])
    else [a[0]] + Merge(a[1..], b)
  }

  /** The records of ``s`` a query returns, in order. */
  function Filter(q: Query, s: seq<Record>): (f: seq<Record>)
    ensures forall r :: r in f <==> r in s && q.Matches(r)
  {
    if s == [] then []
    else
      var last := s[|s| - 1];
      assert s == s[..|s| - 1] + [last];
      Filter(q, s[..|s| - 1]) + (if q.Matches(last) then [last] else [])
  }

  /** How far a read may go: a record written after the read began waits when two sets are merged. */
  predicate Stops(item: Item, bound: Option<nat>) {
    item.BeingWritten? || (bound.Some? && item.rec.id > bound.value)
  }

  /** The page after ``sofar``: what the forward read of ``query`` answers. */
  function ReadOn(q: Query, items: seq<Item>, bound: Option<nat>, sofar: Page): Page
    decreases |items|
  {
    if items == [] then sofar
    else if Stops(items[0], bound) then sofar.(stopped := true)
    else if q.Candidate(items[0].rec) && |sofar.out| >= q.limit then sofar.(truncated := true)
    else
      var r := items[0].rec;
      ReadOn(q, items[1..], bound,
             sofar.(out := if q.Matches(r) then sofar.out + [r] else sofar.out,
                    cursor := if r.id > sofar.cursor then r.id else sofar.cursor))
  }

  /** Both sets merged and folded. Without ``debug`` a read to the end moves the cursor on to ``written``. */
  function Answer(q: Query, main: seq<Item>, debug: Option<seq<Item>>, since: nat, written: nat): Page {
    var bound := if debug.Some? then Some(written) else None;
    var p := ReadOn(q, if debug.Some? then Merge(main, debug.value) else main, bound, Page([], false, false, since));
    if debug.None? && !p.truncated && !p.stopped && written > p.cursor then p.(cursor := written) else p
  }

  // ----- the algorithm ------------------------------------------------------------------------

  lemma {:induction false} MergeStep(a: seq<Item>, b: seq<Item>, i: nat, j: nat)
    requires i <= |a| && j <= |b|
    ensures i < |a| && (j == |b| || IdOf(a[i]) <= IdOf(b[j])) ==> Merge(a[i..], b[j..]) == [a[i]] + Merge(a[i + 1..], b[j..])
    ensures j < |b| && (i == |a| || IdOf(b[j]) < IdOf(a[i])) ==> Merge(a[i..], b[j..]) == [b[j]] + Merge(a[i..], b[j + 1..])
  {
    if i < |a| { assert a[i..] == [a[i]] + a[i + 1..]; }
    if j < |b| { assert b[j..] == [b[j]] + b[j + 1..]; }
  }

  lemma ReadNothing(q: Query, main: seq<Item>, second: seq<Item>, bound: Option<nat>, sofar: Page)
    ensures Merge(main, []) == main && Merge(main[0..], second[0..]) == Merge(main, second)
    ensures ReadOn(q, Merge(main[|main|..], second[|second|..]), bound, sofar) == sofar
  {
    assert main[0..] == main && second[0..] == second;
  }

  lemma ReadStep(q: Query, item: Item, rest: seq<Item>, bound: Option<nat>, sofar: Page)
    ensures ReadOn(q, [item] + rest, bound, sofar) ==
            if Stops(item, bound) then sofar.(stopped := true)
            else if q.Candidate(item.rec) && |sofar.out| >= q.limit then sofar.(truncated := true)
            else ReadOn(q, rest, bound,
                        sofar.(out := if q.Matches(item.rec) then sofar.out + [item.rec] else sofar.out,
                               cursor := if item.rec.id > sofar.cursor then item.rec.id else sofar.cursor))
  {
    assert ([item] + rest)[1..] == rest;
  }

  method QueryAfter(q: Query, main: seq<Item>, debug: Option<seq<Item>>, since: nat, written: nat)
    returns (out: seq<Record>, truncated: bool, cursor: nat)
    ensures var p := Answer(q, main, debug, since, written);
            out == p.out && truncated == p.truncated && cursor == p.cursor
  {
    hide Query.Candidate, Query.Matches, Merge, ReadOn;
    var merged := debug.Some?;
    var skippedTo := if merged then 0 else written;
    var second := if merged then debug.value else [];
    ghost var bound := if merged then Some(written) else None;
    ghost var all := if merged then Merge(main, second) else main;
    out, truncated := [], false;
    var newest, stopped := since, false;
    var i, j := 0, 0;
    ReadNothing(q, main, second, bound, Page([], false, false, since));
    while (i < |main| || j < |second|) && !stopped && !truncated
      invariant i <= |main| && j <= |second| && newest >= since
      invariant stopped || truncated ==>
                  ReadOn(q, all, bound, Page([], false, false, since)) == Page(out, truncated, stopped, newest)
      invariant !stopped && !truncated ==>
                  ReadOn(q, all, bound, Page([], false, false, since))
                  == ReadOn(q, Merge(main[i..], second[j..]), bound, Page(out, false, false, newest))
      decreases |main| - i + |second| - j, !stopped && !truncated
    {
      MergeStep(main, second, i, j);
      ghost var rest := Merge(main[i..], second[j..]);
      var item;
      if j < |second| && (i == |main| || IdOf(second[j]) < IdOf(main[i])) {
        item, j := second[j], j + 1;
      } else {
        item, i := main[i], i + 1;
      }
      ReadStep(q, item, Merge(main[i..], second[j..]), bound, Page(out, false, false, newest));
      if item.BeingWritten? || (merged && item.rec.id > written) {
        stopped := true;
      } else if q.Candidate(item.rec) && |out| >= q.limit {
        truncated := true;
      } else {
        if q.Matches(item.rec) { out := out + [item.rec]; }
        newest := if item.rec.id > newest then item.rec.id else newest;
      }
    }
    ReadNothing(q, main, second, bound, Page(out, false, false, newest));
    cursor := if !truncated && !stopped && skippedTo > newest then skippedTo else newest;
  }

  // ----- what a page holds --------------------------------------------------------------------

  /** In order, records strictly so; a mark may share its id with a record of the other set. */
  ghost predicate Sorted(items: seq<Item>) {
    forall i, j :: 0 <= i < j < |items| ==> Before(items[i], items[j])
  }

  ghost predicate DisjointIds(a: seq<Item>, b: seq<Item>) {
    forall i, j :: 0 <= i < |a| && 0 <= j < |b| && a[i].Read? && b[j].Read? ==> a[i].rec.id != b[j].rec.id
  }

  lemma {:induction false} MergeElements(a: seq<Item>, b: seq<Item>)
    ensures forall x :: x in Merge(a, b) <==> x in a || x in b
  {
    if a != [] && b != [] {
      assert a == [a[0]] + a[1..] && b == [b[0]] + b[1..];
      if IdOf(b[0]) < IdOf(a[0]) {
        MergeElements(a, b[1..]);
      } else {
        MergeElements(a[1..], b);
      }
    }
  }

  predicate Before(x: Item, y: Item) {
    if x.Read? && y.Read? then IdOf(x) < IdOf(y) else IdOf(x) <= IdOf(y)
  }

  lemma SortedCons(x: Item, rest: seq<Item>)
    requires Sorted(rest) && forall y :: y in rest ==> Before(x, y)
    ensures Sorted([x] + rest)
  {
  }

  lemma {:induction false} MergeIsSorted(a: seq<Item>, b: seq<Item>)
    requires Increasing(a) && Increasing(b) && DisjointIds(a, b)
    ensures Sorted(Merge(a, b))
  {
    if a != [] && b != [] {
      var fromB := IdOf(b[0]) < IdOf(a[0]);
      var x := if fromB then b[0] else a[0];
      var a', b' := if fromB then a else a[1..], if fromB then b[1..] else b;
      MergeIsSorted(a', b');
      MergeElements(a', b');
      forall y | y in Merge(a', b') ensures Before(x, y) {
        if y in a' {
          var i :| 0 <= i < |a'| && a'[i] == y;
        } else {
          var i :| 0 <= i < |b'| && b'[i] == y;
        }
      }
      SortedCons(x, Merge(a', b'));
    }
  }

  /** The records of the first ``n`` items. */
  function Records(items: seq<Item>): (r: seq<Record>)
    requires forall i :: 0 <= i < |items| ==> items[i].Read?
    ensures |r| == |items| && forall i :: 0 <= i < |r| ==> r[i] == items[i].rec
  {
    seq(|items|, i requires 0 <= i < |items| => items[i].rec)
  }

  lemma FilterSnoc(q: Query, s: seq<Record>, r: Record)
    ensures Filter(q, s + [r]) == Filter(q, s) + (if q.Matches(r) then [r] else [])
  {
    assert (s + [r])[..|s|] == s;
  }

  /** A page after ``n`` items, all of them read. */
  ghost predicate Reached(q: Query, items: seq<Item>, bound: Option<nat>, since: nat, p: Page, n: nat) {
    && n <= |items|
    && (forall i :: 0 <= i < n ==> items[i].Read? && !Stops(items[i], bound))
    && p.out == Filter(q, Records(items[..n]))
    && p.cursor == (if n == 0 then since else items[n - 1].rec.id)
    && |p.out| <= q.limit
  }

  /** ... where ``ReadOn`` ended, and why. */
  ghost predicate GotTo(q: Query, items: seq<Item>, bound: Option<nat>, since: nat, p: Page, n: nat) {
    && Reached(q, items, bound, since, p, n)
    && (n < |items| <==> p.stopped || p.truncated)
    && (p.stopped ==> Stops(items[n], bound))
    && (p.truncated ==> |p.out| == q.limit && items[n].Read? && q.Candidate(items[n].rec))
  }

  lemma ReachedNext(q: Query, items: seq<Item>, bound: Option<nat>, since: nat, p: Page, n: nat)
    requires Sorted(items) && (forall i :: 0 <= i < |items| ==> IdOf(items[i]) > since)
    requires Reached(q, items, bound, since, p, n) && n < |items|
    requires !Stops(items[n], bound) && !(q.Candidate(items[n].rec) && |p.out| >= q.limit)
    ensures items[n].rec.id > p.cursor
    ensures var r := items[n].rec;
            Reached(q, items, bound, since, p.(out := if q.Matches(r) then p.out + [r] else p.out, cursor := r.id), n + 1)
  {
    var r := items[n].rec;
    assert n > 0 ==> Before(items[n - 1], items[n]);
    assert Records(items[..n + 1]) == Records(items[..n]) + [r];
    FilterSnoc(q, Records(items[..n]), r);
  }

  lemma {:induction false} ReadOnGetsTo(q: Query, items: seq<Item>, bound: Option<nat>, since: nat, k: nat, sofar: Page) returns (n: nat)
    requires Sorted(items) && (forall i :: 0 <= i < |items| ==> IdOf(items[i]) > since)
    requires Reached(q, items, bound, since, sofar, k) && !sofar.stopped && !sofar.truncated
    ensures GotTo(q, items, bound, since, ReadOn(q, items[k..], bound, sofar), n)
    decreases |items| - k
  {
    n := k;
    if k < |items| {
      assert items[k..] == [items[k]] + items[k + 1..];
      ReadStep(q, items[k], items[k + 1..], bound, sofar);
      if !Stops(items[k], bound) && !(q.Candidate(items[k].rec) && |sofar.out| >= q.limit) {
        var r := items[k].rec;
        ReachedNext(q, items, bound, since, sofar, k);
        n := ReadOnGetsTo(q, items, bound, since, k + 1,
                          sofar.(out := if q.Matches(r) then sofar.out + [r] else sofar.out, cursor := r.id));
      }
    }
  }

  lemma {:induction false} FilterIncreasing(q: Query, s: seq<Record>)
    requires forall i, j :: 0 <= i < j < |s| ==> s[i].id < s[j].id
    ensures forall i, j :: 0 <= i < j < |Filter(q, s)| ==> Filter(q, s)[i].id < Filter(q, s)[j].id
  {
    if s != [] {
      FilterIncreasing(q, s[..|s| - 1]);
      forall r | r in Filter(q, s[..|s| - 1]) ensures r.id < s[|s| - 1].id {
        var i :| 0 <= i < |s| - 1 && s[..|s| - 1][i] == r;
      }
    }
  }

  // ----- one poll -----------------------------------------------------------------------------

  ghost predicate IsLog(log: seq<Record>) {
    && (forall i, j :: 0 <= i < j < |log| ==> log[i].id < log[j].id)
    && (forall i :: 0 <= i < |log| ==> log[i].id > 0)
  }

  /** What reading one set of files gives, whatever is written and rotated meanwhile: records of the log in id
      order, none left out below the last one read, nor any that was whole when the read began (``written``),
      but for those rotated off the disk (up to ``gone``). */
  ghost predicate View(items: seq<Item>, log: seq<Record>, debugSet: bool, since: nat, written: nat, gone: nat) {
    && ReadOut(items, since)
    && (forall i :: 0 <= i < |items| && items[i].Read? ==> items[i].rec in log && (items[i].rec.level < INFO <==> debugSet))
    && (forall r :: r in log && (r.level < INFO <==> debugSet) && since < r.id && gone < r.id
                    && (r.id <= written || exists j :: 0 <= j < |items| && items[j].Read? && r.id <= items[j].rec.id)
                    ==> Read(r) in items)
  }

  /** One poll: what was read of each set, and up to which id each had lost its oldest records to rotation. */
  datatype Poll = Poll(main: seq<Item>, debug: Option<seq<Item>>, written: nat, goneMain: nat, goneDebug: nat)

  function GoneAt(p: Poll, r: Record): nat {
    if r.level < INFO then p.goneDebug else p.goneMain
  }

  ghost predicate Faithful(p: Poll, log: seq<Record>, since: nat) {
    && View(p.main, log, false, since, p.written, p.goneMain)
    && (p.debug.Some? ==> View(p.debug.value, log, true, since, p.written, p.goneDebug))
  }

  /** ``more`` is the log as it went on after reads that saw no id above ``upTo``. */
  ghost predicate GoesOn(log: seq<Record>, more: seq<Record>, upTo: nat) {
    log <= more && forall i :: |log| <= i < |more| ==> more[i].id > upTo
  }

  /** A view stays one while records newer than it are written. */
  lemma ViewGrows(items: seq<Item>, log: seq<Record>, more: seq<Record>, debugSet: bool, since: nat, written: nat, gone: nat, upTo: nat)
    requires View(items, log, debugSet, since, written, gone) && GoesOn(log, more, upTo) && written <= upTo
    requires forall r :: r in log ==> r.id <= upTo
    ensures View(items, more, debugSet, since, written, gone)
  {
    forall r | r in more && r !in log ensures r.id > upTo {
      var i :| 0 <= i < |more| && more[i] == r;
    }
  }

  lemma SameRecord(log: seq<Record>, r: Record, s: Record)
    requires IsLog(log) && r in log && s in log && r.id == s.id
    ensures r == s
  {
    var i :| 0 <= i < |log| && log[i] == r;
    var j :| 0 <= j < |log| && log[j] == s;
  }

  function Items(p: Poll): seq<Item> {
    if p.debug.Some? then Merge(p.main, p.debug.value) else p.main
  }

  function Bound(p: Poll): Option<nat> {
    if p.debug.Some? then Some(p.written) else None
  }

  lemma ItemsOfAPoll(log: seq<Record>, p: Poll, since: nat)
    requires IsLog(log) && Faithful(p, log, since)
    ensures Sorted(Items(p))
    ensures forall x :: x in Items(p) <==> x in p.main || (p.debug.Some? && x in p.debug.value)
  {
    if p.debug.Some? {
      var d := p.debug.value;
      forall i, j | 0 <= i < |p.main| && 0 <= j < |d| && p.main[i].Read? && d[j].Read?
        ensures p.main[i].rec.id != d[j].rec.id
      {
        if p.main[i].rec.id == d[j].rec.id { SameRecord(log, p.main[i].rec, d[j].rec); }
      }
      MergeIsSorted(p.main, d);
      MergeElements(p.main, d);
    }
  }

  /** The items a poll goes through, and how far. */
  lemma PollGetsTo(q: Query, log: seq<Record>, p: Poll, since: nat) returns (n: nat, b: Page)
    requires IsLog(log) && Faithful(p, log, since)
    ensures forall x :: x in Items(p) <==> x in p.main || (p.debug.Some? && x in p.debug.value)
    ensures forall x :: x in Items(p) ==> IdOf(x) > since && (x.Read? ==> x.rec in log)
    ensures Sorted(Items(p))
    ensures b == ReadOn(q, Items(p), Bound(p), Page([], false, false, since)) && GotTo(q, Items(p), Bound(p), since, b, n)
  {
    hide ReadOn;
    ItemsOfAPoll(log, p, since);
    var items := Items(p);
    forall i | 0 <= i < |items| ensures IdOf(items[i]) > since { assert items[i] in items; }
    assert items[0..] == items;
    b := ReadOn(q, items, Bound(p), Page([], false, false, since));
    n := ReadOnGetsTo(q, items, Bound(p), since, 0, Page([], false, false, since));
  }

  lemma ConsumedAreOrdered(q: Query, items: seq<Item>, bound: Option<nat>, since: nat, p: Page, n: nat)
    requires Sorted(items) && (forall i :: 0 <= i < |items| ==> IdOf(items[i]) > since)
    requires Reached(q, items, bound, since, p, n)
    ensures p.cursor >= since
    ensures forall i, j :: 0 <= i < j < |p.out| ==> p.out[i].id < p.out[j].id
    ensures forall r :: r in p.out ==> Read(r) in items && since < r.id <= p.cursor
  {
    var recs := Records(items[..n]);
    forall i, j | 0 <= i < j < |recs| ensures recs[i].id < recs[j].id { assert Before(items[i], items[j]); }
    FilterIncreasing(q, recs);
    forall r | r in p.out ensures Read(r) in items && since < r.id <= p.cursor {
      var i :| 0 <= i < |recs| && recs[i] == r;
      assert items[i] == Read(r) && (i < n - 1 ==> Before(items[i], items[n - 1]));
    }
  }

  /** A page holds matching records between its cursors only, in order, each once, and is no longer than asked. */
  lemma PollIsSound(q: Query, log: seq<Record>, p: Poll, since: nat)
    requires IsLog(log) && Faithful(p, log, since)
    ensures var a := Answer(q, p.main, p.debug, since, p.written);
            && a.cursor >= since && |a.out| <= q.limit && (a.truncated ==> |a.out| == q.limit)
            && (forall i, j :: 0 <= i < j < |a.out| ==> a.out[i].id < a.out[j].id)
            && (forall r :: r in a.out ==> r in log && q.Matches(r) && since < r.id <= a.cursor)
  {
    var n, b := PollGetsTo(q, log, p, since);
    var items, bound := Items(p), Bound(p);
    ConsumedAreOrdered(q, items, bound, since, b, n);
  }

  /** On the disk, and between the cursors, or whole before a read that went to the end. */
  predicate Due(p: Poll, a: Page, since: nat, r: Record) {
    && since < r.id && GoneAt(p, r) < r.id
    && (r.id <= a.cursor || (!a.truncated && !a.stopped && r.id <= p.written))
  }

  /** ... and every matching record between them that was on the disk, as long as the DEBUG records were read or
      are not asked for. One that is not full and met no line being written leaves nothing unread. */
  lemma PollIsComplete(q: Query, log: seq<Record>, p: Poll, since: nat)
    requires IsLog(log) && Faithful(p, log, since)
    requires p.debug.Some? || q.minLevel >= INFO
    ensures var a := Answer(q, p.main, p.debug, since, p.written);
            forall r :: r in log && q.Matches(r) && Due(p, a, since, r) ==> r in a.out
  {
    var n, b := PollGetsTo(q, log, p, since);
    var items, bound := Items(p), Bound(p);
    var a := Answer(q, p.main, p.debug, since, p.written);
    forall r | r in log && q.Matches(r) && Due(p, a, since, r) ensures r in a.out
    {
      PollMisses(q, log, p, since, items, bound, n, b, r);
    }
  }

  /** A poll goes on: a matching record that was there when it began is given, unless the page is full of older ones or a
      line before it was still being written. */
  lemma PollGoesOn(q: Query, log: seq<Record>, p: Poll, since: nat, r: Record)
    requires IsLog(log) && Faithful(p, log, since) && (p.debug.Some? || q.minLevel >= INFO)
    requires r in log && q.Matches(r) && since < r.id <= p.written && GoneAt(p, r) < r.id
    requires forall x :: (x in p.main || (p.debug.Some? && x in p.debug.value)) && x.BeingWritten? ==> r.id < x.at
    ensures var a := Answer(q, p.main, p.debug, since, p.written);
            r in a.out || (a.truncated && |a.out| == q.limit && forall x :: x in a.out ==> x.id < r.id)
  {
    var n, b := PollGetsTo(q, log, p, since);
    StopsNoEarlier(q, Items(p), Bound(p), since, b, n, r, p.written);
  }

  lemma StopsNoEarlier(q: Query, items: seq<Item>, bound: Option<nat>, since: nat, b: Page, n: nat, r: Record, written: nat)
    requires Sorted(items) && GotTo(q, items, bound, since, b, n)
    requires Read(r) in items && q.Matches(r) && r.id <= written && (bound.Some? ==> bound.value == written)
    requires forall x :: x in items && x.BeingWritten? ==> r.id < x.at
    ensures r in b.out || (b.truncated && |b.out| == q.limit && forall x :: x in b.out ==> x.id < r.id)
  {
    var k :| 0 <= k < |items| && items[k] == Read(r);
    if k < n {
      assert Records(items[..n])[k] == r;
    } else {
      assert items[n] in items && (n < k ==> Before(items[n], items[k]));
      forall x | x in b.out ensures x.id < r.id {
        var i :| 0 <= i < n && Records(items[..n])[i] == x;
        assert Before(items[i], items[k]);
      }
    }
  }

  /** A matching record on the disk and not beyond the cursor is among the items consumed. */
  lemma PollMisses(q: Query, log: seq<Record>, p: Poll, since: nat, items: seq<Item>, bound: Option<nat>, n: nat, b: Page, r: Record)
    requires IsLog(log) && Faithful(p, log, since) && (p.debug.Some? || q.minLevel >= INFO)
    requires bound == if p.debug.Some? then Some(p.written) else None
    requires forall x :: x in items <==> x in p.main || (p.debug.Some? && x in p.debug.value)
    requires Sorted(items) && GotTo(q, items, bound, since, b, n)
    requires r in log && q.Matches(r) && since < r.id && GoneAt(p, r) < r.id
    requires r.id <= b.cursor || (!b.truncated && !b.stopped && r.id <= p.written)
    ensures r in b.out
  {
    assert Read(r) in items by {
      if r.id > p.written {
        assert n > 0 && items[n - 1] in items;
        assert !Stops(items[n - 1], bound);
        assert p.debug.None?;
        var j :| 0 <= j < |p.main| && p.main[j] == items[n - 1];
        assert p.main[j].Read? && r.id <= p.main[j].rec.id;
      }
    }
    var k :| 0 <= k < |items| && items[k] == Read(r);
    assert k < n;
    assert Records(items[..n])[k] == r;
  }

  // ----- following the log --------------------------------------------------------------------

  /** What a follower has been given after these polls, each from the cursor of the one before, and where it is. */
  function Follow(q: Query, polls: seq<Poll>, since: nat): (seq<Record>, nat) {
    if polls == [] then ([], since)
    else
      var a := Answer(q, polls[0].main, polls[0].debug, since, polls[0].written);
      var (rest, cursor) := Follow(q, polls[1..], a.cursor);
      (a.out + rest, cursor)
  }

  ghost predicate FaithfulRun(q: Query, polls: seq<Poll>, log: seq<Record>, since: nat) {
    polls == [] || (
      var p := polls[0];
      && Faithful(p, log, since)
      && (p.debug.Some? || q.minLevel >= INFO)
      && FaithfulRun(q, polls[1..], log, Answer(q, p.main, p.debug, since, p.written).cursor))
  }

  /** ``r`` was off the disk at the very poll that passed it. */
  ghost predicate Lost(q: Query, polls: seq<Poll>, since: nat, r: Record) {
    polls != [] && (
      var a := Answer(q, polls[0].main, polls[0].debug, since, polls[0].written);
      || (since < r.id <= a.cursor && r.id <= GoneAt(polls[0], r))
      || Lost(q, polls[1..], a.cursor, r))
  }

  /** One more poll. */
  lemma {:induction false} FollowSnoc(q: Query, polls: seq<Poll>, p: Poll, log: seq<Record>, since: nat)
    requires FaithfulRun(q, polls, log, since) && (p.debug.Some? || q.minLevel >= INFO)
    requires Faithful(p, log, Follow(q, polls, since).1)
    ensures FaithfulRun(q, polls + [p], log, since)
    ensures var (out, cursor) := Follow(q, polls, since);
            var a := Answer(q, p.main, p.debug, cursor, p.written);
            Follow(q, polls + [p], since) == (out + a.out, a.cursor)
  {
    hide Answer, Faithful;
    if polls == [] {
      assert [p][1..] == [] && [] + [p] == [p];
      var a := Answer(q, p.main, p.debug, since, p.written);
      assert Follow(q, [p], since) == (a.out + [], a.cursor);
      assert a.out + [] == [] + a.out;
    } else {
      var a := Answer(q, polls[0].main, polls[0].debug, since, polls[0].written);
      FollowSnoc(q, polls[1..], p, log, a.cursor);
      assert (polls + [p])[1..] == polls[1..] + [p];
      var (rest, cursor) := Follow(q, polls[1..], a.cursor);
      var last := Answer(q, p.main, p.debug, cursor, p.written);
      assert a.out + (rest + last.out) == (a.out + rest) + last.out;
    }
  }

  lemma {:induction false} RunGrows(q: Query, polls: seq<Poll>, log: seq<Record>, more: seq<Record>, since: nat, upTo: nat)
    requires FaithfulRun(q, polls, log, since) && GoesOn(log, more, upTo)
    requires (forall r :: r in log ==> r.id <= upTo) && (forall p :: p in polls ==> p.written <= upTo)
    ensures FaithfulRun(q, polls, more, since)
  {
    if polls != [] {
      var p := polls[0];
      assert p in polls && forall p' :: p' in polls[1..] ==> p' in polls;
      ViewGrows(p.main, log, more, false, since, p.written, p.goneMain, upTo);
      if p.debug.Some? { ViewGrows(p.debug.value, log, more, true, since, p.written, p.goneDebug, upTo); }
      RunGrows(q, polls[1..], log, more, Answer(q, p.main, p.debug, since, p.written).cursor, upTo);
    }
  }

  /** Any number of polls, whatever was written and rotated around them: together they delivered exactly the
      matching records between the first cursor and the last, in id order, each once, but for those that were
      rotated off the disk before the poll that passed them. */
  lemma {:induction false} FollowIsExact(q: Query, polls: seq<Poll>, log: seq<Record>, since: nat)
    requires IsLog(log) && FaithfulRun(q, polls, log, since)
    ensures var (out, cursor) := Follow(q, polls, since);
            && cursor >= since
            && (forall i, j :: 0 <= i < j < |out| ==> out[i].id < out[j].id)
            && (forall r :: r in out ==> r in log && q.Matches(r) && since < r.id <= cursor)
            && (forall r :: r in log && q.Matches(r) && since < r.id <= cursor ==> r in out || Lost(q, polls, since, r))
  {
    if polls != [] {
      var p := polls[0];
      var a := Answer(q, p.main, p.debug, since, p.written);
      PollIsSound(q, log, p, since);
      PollIsComplete(q, log, p, since);
      FollowIsExact(q, polls[1..], log, a.cursor);
      var (rest, cursor) := Follow(q, polls[1..], a.cursor);
      forall r | r in log && q.Matches(r) && since < r.id <= cursor
        ensures r in a.out + rest || Lost(q, polls, since, r)
      {
        if r.id <= a.cursor {
          assert GoneAt(p, r) < r.id ==> Due(p, a, since, r);
        }
      }
    }
  }

  /** A follower whose last page was neither full nor stopped by a line being written has everything that was written
      before that poll. */
  lemma CaughtUp(q: Query, polls: seq<Poll>, p: Poll, log: seq<Record>, since: nat)
    requires IsLog(log) && FaithfulRun(q, polls, log, since) && (p.debug.Some? || q.minLevel >= INFO)
    requires Faithful(p, log, Follow(q, polls, since).1)
    requires var a := Answer(q, p.main, p.debug, Follow(q, polls, since).1, p.written); !a.truncated && !a.stopped
    ensures forall r :: r in log && q.Matches(r) && since < r.id <= p.written ==>
                          r in Follow(q, polls + [p], since).0 || Lost(q, polls + [p], since, r) || r.id <= GoneAt(p, r)
  {
    hide Answer, Lost, Faithful;
    var cursor := Follow(q, polls, since).1;
    FollowSnoc(q, polls, p, log, since);
    FollowIsExact(q, polls + [p], log, since);
    PollIsComplete(q, log, p, cursor);
    FollowIsExact(q, polls, log, since);
    var a := Answer(q, p.main, p.debug, cursor, p.written);
    forall r | r in log && q.Matches(r) && a.cursor < r.id <= p.written ensures r in a.out || r.id <= GoneAt(p, r) {
      PollIsSound(q, log, p, cursor);
      assert r.id > GoneAt(p, r) ==> Due(p, a, cursor, r);
    }
  }

  /** The second set appears between the test for it and the read of the first: its record is passed for good. */
  lemma NewDebugSetIsPassed(q: Query, d: Record, r: Record)
    requires d.id == 1 && r.id == 2 && d.level < INFO <= r.level
    requires q.minLevel < INFO && q.limit > 0 && q.Matches(d)
    ensures var log := [d, r];
            var p := Poll([Read(r)], None, 0, 0, 0);
            && IsLog(log) && Faithful(p, log, 0)
            && Follow(q, [p], 0).1 == 2 && d !in Follow(q, [p], 0).0
  {
    var items := [Read(r)];
    ReadStep(q, items[0], [], None, Page([], false, false, 0));
    assert items == [items[0]] + [];
    var p := Poll(items, None, 0, 0, 0);
    assert Follow(q, [p][1..], 2) == ([], 2);
  }

  // ----- searching on masked records ----------------------------------------------------------

  /** The query the Logs page makes for a search: no raw text; a record counts by what it shows once masked. */
  function PageQuery(mask: string -> string, found: string -> bool, floors: (int, string) -> bool, minLevel: int,
                     prefixes: seq<string>, limit: nat): Query {
    Query(minLevel, prefixes, (r: Record) => true, (r: Record) => floors(r.level, r.logger) && (found(mask(r.message)) || found(r.logger)), limit)
  }

  predicate StandsAt(shown: string, text: string, k: nat) {
    k + |text| <= |shown| && shown[k..k + |text|] == text
  }

  /** ``text`` stands somewhere in ``shown``. */
  predicate Shows(shown: string, text: string) {
    exists k :: 0 <= k <= |shown| && StandsAt(shown, text, k)
  }

  /** What a search for ``text`` asks, in lower case, of the masked message and of the logger. */
  function Found(lower: string -> string, text: string): string -> bool {
    shown => Shows(lower(shown), text)
  }

  /** A page of a search has, of the records due, exactly those of the levels and loggers asked for whose masked message
      or logger shows what is searched for: all of them if nothing is, and none for its raw message. */
  lemma SearchShows(mask: string -> string, lower: string -> string, text: string, floors: (int, string) -> bool, minLevel: int, prefixes: seq<string>,
                    limit: nat, log: seq<Record>, p: Poll, since: nat, r: Record)
    requires IsLog(log) && Faithful(p, log, since) && (p.debug.Some? || minLevel >= INFO)
    requires var a := Answer(PageQuery(mask, Found(lower, text), floors, minLevel, prefixes, limit), p.main, p.debug, since, p.written);
             r in log && Due(p, a, since, r)
    ensures var a := Answer(PageQuery(mask, Found(lower, text), floors, minLevel, prefixes, limit), p.main, p.debug, since, p.written);
            r in a.out <==>
            && r.level >= minLevel && floors(r.level, r.logger)
            && (prefixes == [] || exists i :: 0 <= i < |prefixes| && prefixes[i] <= r.logger)
            && (Shows(lower(mask(r.message)), text) || Shows(lower(r.logger), text))
    ensures Shows(lower(r.logger), "")
  {
    var q := PageQuery(mask, Found(lower, text), floors, minLevel, prefixes, limit);
    PollIsComplete(q, log, p, since);
    PollIsSound(q, log, p, since);
    assert StandsAt(lower(r.logger), "", 0);
  }

  ghost predicate SameMasked(mask: string -> string, a: Item, b: Item) {
    && a.Read? == b.Read? && IdOf(a) == IdOf(b)
    && (a.Read? ==> SameShown(mask, a.rec, b.rec))
  }

  /** Two records that show the same. */
  ghost predicate SameShown(mask: string -> string, a: Record, b: Record) {
    a.id == b.id && a.level == b.level && a.logger == b.logger && mask(a.message) == mask(b.message)
  }

  ghost predicate SameShownAll(mask: string -> string, a: seq<Record>, b: seq<Record>) {
    |a| == |b| && forall i :: 0 <= i < |a| ==> SameShown(mask, a[i], b[i])
  }

  ghost predicate SameMaskedAll(mask: string -> string, a: seq<Item>, b: seq<Item>) {
    |a| == |b| && forall i :: 0 <= i < |a| ==> SameMasked(mask, a[i], b[i])
  }

  lemma {:induction false} MergeSameMasked(mask: string -> string, a: seq<Item>, b: seq<Item>, a': seq<Item>, b': seq<Item>)
    requires SameMaskedAll(mask, a, a') && SameMaskedAll(mask, b, b')
    ensures SameMaskedAll(mask, Merge(a, b), Merge(a', b'))
  {
    if a != [] && b != [] {
      assert SameMasked(mask, a[0], a'[0]) && SameMasked(mask, b[0], b'[0]);
      if IdOf(b[0]) < IdOf(a[0]) {
        MergeSameMasked(mask, a, b[1..], a', b'[1..]);
      } else {
        MergeSameMasked(mask, a[1..], b, a'[1..], b');
      }
    }
  }

  lemma {:induction false} ReadOnSameMasked(mask: string -> string, found: string -> bool, floors: (int, string) -> bool, minLevel: int,
                                            prefixes: seq<string>, limit: nat, a: seq<Item>, b: seq<Item>, bound: Option<nat>, p: Page, p': Page)
    requires SameMaskedAll(mask, a, b)
    requires SameShownAll(mask, p.out, p'.out) && p.truncated == p'.truncated && p.stopped == p'.stopped && p.cursor == p'.cursor
    ensures var q := PageQuery(mask, found, floors, minLevel, prefixes, limit);
            var x, y := ReadOn(q, a, bound, p), ReadOn(q, b, bound, p');
            SameShownAll(mask, x.out, y.out) && x.truncated == y.truncated && x.stopped == y.stopped && x.cursor == y.cursor
    decreases |a|
  {
    if a != [] {
      var q := PageQuery(mask, found, floors, minLevel, prefixes, limit);
      assert SameMasked(mask, a[0], b[0]) && SameMaskedAll(mask, a[1..], b[1..]);
      if !Stops(a[0], bound) && !(q.Candidate(a[0].rec) && |p.out| >= limit) {
        var r, s := a[0].rec, b[0].rec;
        var next := p.(out := if q.Matches(r) then p.out + [r] else p.out, cursor := if r.id > p.cursor then r.id else p.cursor);
        var next' := p'.(out := if q.Matches(s) then p'.out + [s] else p'.out, cursor := if s.id > p'.cursor then s.id else p'.cursor);
        ReadOnSameMasked(mask, found, floors, minLevel, prefixes, limit, a[1..], b[1..], bound, next, next');
      }
    }
  }

  /** Two logs that differ only in what masking hides answer every search with the same cursor and the same
      ``truncated``, whatever was searched for, and with pages that show the same. */
  lemma SearchIndependence(mask: string -> string, found: string -> bool, floors: (int, string) -> bool, minLevel: int, prefixes: seq<string>,
                           limit: nat, since: nat, written: nat,
                           main: seq<Item>, debug: Option<seq<Item>>, main': seq<Item>, debug': Option<seq<Item>>)
    requires SameMaskedAll(mask, main, main') && debug.Some? == debug'.Some?
    requires debug.Some? ==> SameMaskedAll(mask, debug.value, debug'.value)
    ensures var q := PageQuery(mask, found, floors, minLevel, prefixes, limit);
            var x, y := Answer(q, main, debug, since, written), Answer(q, main', debug', since, written);
            x.truncated == y.truncated && x.cursor == y.cursor && SameShownAll(mask, x.out, y.out)
  {
    if debug.Some? { MergeSameMasked(mask, main, debug.value, main', debug'.value); }
    var a := if debug.Some? then Merge(main, debug.value) else main;
    var b := if debug.Some? then Merge(main', debug'.value) else main';
    var start := Page([], false, false, since);
    ReadOnSameMasked(mask, found, floors, minLevel, prefixes, limit, a, b,
                     if debug.Some? then Some(written) else None, start, start);
  }

  /** Searching the raw text instead answers a guess: the same two masked logs, and only one page is cut short. */
  lemma RawSearchTells(q: Query, a: Record, b: Record, c: Record)
    requires a.id == b.id == 1 && c.id == 2 && q.limit == 1
    requires q.Matches(a) && q.Candidate(b) && !q.Matches(b) && q.Candidate(c)
    ensures Answer(q, [Read(a), Read(c)], None, 0, 2).truncated
    ensures !Answer(q, [Read(b), Read(c)], None, 0, 2).truncated
  {
    var start := Page([], false, false, 0);
    ReadStep(q, Read(a), [Read(c)], None, start);
    ReadStep(q, Read(b), [Read(c)], None, start);
    assert [Read(a), Read(c)] == [Read(a)] + [Read(c)] && [Read(b), Read(c)] == [Read(b)] + [Read(c)];
    ReadStep(q, Read(c), [], None, Page([a], false, false, 1));
    ReadStep(q, Read(c), [], None, Page([], false, false, 1));
    assert [Read(c)] == [Read(c)] + [];
  }
}
