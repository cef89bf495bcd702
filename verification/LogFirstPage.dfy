/** The page a follower begins with: the newest records that match, read back from the newest of both sets until the
    page is full, and the cursor the follower goes on from. */
module LogFirstPage {
  import opened LogFollower

  /** What the first page reads: the records of each set, newest first, and the id of a line still being written. */
  datatype First = First(main: seq<Record>, debug: Option<seq<Record>>, ceiling: Option<nat>, written: nat) {
    /** Written before the read, and before any line that is still being written, where that matters. */
    predicate Takes(r: Record) {
      debug.None? || (r.id <= written && (ceiling.Some? ==> r.id < ceiling.value))
    }

    function All(): seq<Record> {
      if debug.Some? then MergeDown(main, debug.value) else main
    }
  }

  function MergeDown(a: seq<Record>, b: seq<Record>): (m: seq<Record>)
    ensures |m| == |a| + |b|
  {
    if a == [] then b
    else if b == [] then a
    else if b[0].id > a[0].id then [b[0]] + MergeDown(a, b[1..])
    else [a[0]] + MergeDown(a[1..], b)
  }

  function Max(a: nat, b: nat): nat {
    if a > b then a else b
  }

  /** Records read newest first until the page is full: what was taken so far, newest first, and the newest id read. */
  function ReadBack(q: Query, f: First, recs: seq<Record>, out: seq<Record>, newest: nat): (seq<Record>, nat) {
    if recs == [] then (out, newest)
    else
      var r := recs[0];
      if !f.Takes(r) then ReadBack(q, f, recs[1..], out, newest)
      else if !q.Matches(r) then ReadBack(q, f, recs[1..], out, Max(newest, r.id))
      else if |out| + 1 >= q.limit then (out + [r], Max(newest, r.id))
      else ReadBack(q, f, recs[1..], out + [r], Max(newest, r.id))
  }

  function Reversed(s: seq<Record>): (r: seq<Record>)
    ensures |r| == |s| && forall i :: 0 <= i < |s| ==> r[i] == s[|s| - 1 - i]
  {
    seq(|s|, i requires 0 <= i < |s| => s[|s| - 1 - i])
  }

  /** The whole first page: never cut short, and from where a follower goes on. */
  function FirstAnswer(q: Query, f: First): Page {
    var (out, newest) := ReadBack(q, f, f.All(), [], 0);
    var reached := Max(newest, if f.debug.Some? then 0 else f.written);
    Page(Reversed(out), false, false, if f.debug.Some? && reached > f.written then f.written else reached)
  }

  lemma {:induction false} MergeDownStep(a: seq<Record>, b: seq<Record>, i: nat, j: nat)
    requires i <= |a| && j <= |b|
    ensures i < |a| && (j == |b| || b[j].id <= a[i].id) ==> MergeDown(a[i..], b[j..]) == [a[i]] + MergeDown(a[i + 1..], b[j..])
    ensures j < |b| && (i == |a| || b[j].id > a[i].id) ==> MergeDown(a[i..], b[j..]) == [b[j]] + MergeDown(a[i..], b[j + 1..])
    ensures i == |a| && j == |b| ==> MergeDown(a[i..], b[j..]) == []
  {
    if i < |a| { assert a[i..] == [a[i]] + a[i + 1..]; }
    if j < |b| { assert b[j..] == [b[j]] + b[j + 1..]; }
  }

  lemma ReadBackStep(q: Query, f: First, r: Record, rest: seq<Record>, out: seq<Record>, newest: nat)
    ensures ReadBack(q, f, [r] + rest, out, newest) ==
            if !f.Takes(r) then ReadBack(q, f, rest, out, newest)
            else if !q.Matches(r) then ReadBack(q, f, rest, out, Max(newest, r.id))
            else if |out| + 1 >= q.limit then (out + [r], Max(newest, r.id))
            else ReadBack(q, f, rest, out + [r], Max(newest, r.id))
  {
    assert ([r] + rest)[1..] == rest;
  }

  method QueryFirst(q: Query, f: First) returns (out: seq<Record>, truncated: bool, cursor: nat)
    ensures var p := FirstAnswer(q, f); out == p.out && truncated == p.truncated && cursor == p.cursor
  {
    hide Query.Candidate, Query.Matches, MergeDown, ReadBack;
    var second := if f.debug.Some? then f.debug.value else [];
    var back: seq<Record>, newest: nat, full := [], 0, false;
    var i, j := 0, 0;
    assert f.main[0..] == f.main && second[0..] == second;
    assert f.All() == MergeDown(f.main[i..], second[j..]) by { MergeDownEmpty(f.main); }
    while (i < |f.main| || j < |second|) && !full
      invariant i <= |f.main| && j <= |second|
      invariant ReadBack(q, f, f.All(), [], 0) ==
                if full then (back, newest) else ReadBack(q, f, MergeDown(f.main[i..], second[j..]), back, newest)
      decreases |f.main| - i + |second| - j
    {
      MergeDownStep(f.main, second, i, j);
      var c;
      if j < |second| && (i == |f.main| || second[j].id > f.main[i].id) {
        c, j := second[j], j + 1;
      } else {
        c, i := f.main[i], i + 1;
      }
      ReadBackStep(q, f, c, MergeDown(f.main[i..], second[j..]), back, newest);
      if f.Takes(c) {
        newest := if c.id > newest then c.id else newest;
        if q.Matches(c) {
          back := back + [c];
          full := |back| >= q.limit;
        }
      }
    }
    if !full {
      MergeDownStep(f.main, second, i, j);
      ReadBackNothing(q, f, back, newest);
    }
    var skippedTo := if f.debug.Some? then 0 else f.written;
    out, truncated := Reversed(back), false;
    cursor := if newest > skippedTo then newest else skippedTo;
    if f.debug.Some? && cursor > f.written { cursor := f.written; }
  }

  lemma MergeDownEmpty(a: seq<Record>)
    ensures MergeDown(a, []) == a
  {
  }

  lemma ReadBackNothing(q: Query, f: First, out: seq<Record>, newest: nat)
    ensures ReadBack(q, f, [], out, newest) == (out, newest)
  {
  }

  ghost predicate Falling(recs: seq<Record>) {
    forall i, j :: 0 <= i < j < |recs| ==> recs[i].id > recs[j].id
  }

  ghost predicate DistinctIds(a: seq<Record>, b: seq<Record>) {
    forall r, s :: r in a && s in b ==> r.id != s.id
  }

  lemma FallsFrom(x: Record, rest: seq<Record>)
    requires Falling(rest) && forall y :: y in rest ==> x.id > y.id
    ensures Falling([x] + rest)
  {
  }

  lemma FallsAfter(recs: seq<Record>)
    requires Falling(recs) && recs != []
    ensures Falling(recs[1..]) && (forall y :: y in recs[1..] ==> recs[0].id > y.id)
    ensures forall y :: y in recs <==> y == recs[0] || y in recs[1..]
  {
    assert recs == [recs[0]] + recs[1..];
    forall y | y in recs[1..] ensures recs[0].id > y.id { var i :| 0 <= i < |recs[1..]| && recs[1..][i] == y; }
  }

  lemma {:induction false} MergeDownFalls(a: seq<Record>, b: seq<Record>)
    requires Falling(a) && Falling(b) && DistinctIds(a, b)
    ensures Falling(MergeDown(a, b)) && forall r :: r in MergeDown(a, b) <==> r in a || r in b
  {
    hide Falling;
    if a != [] && b != [] {
      FallsAfter(a);
      FallsAfter(b);
      if b[0].id > a[0].id {
        MergeDownFalls(a, b[1..]);
        FallsFrom(b[0], MergeDown(a, b[1..]));
      } else {
        MergeDownFalls(a[1..], b);
        assert forall y :: y in b ==> a[0].id > y.id;
        FallsFrom(a[0], MergeDown(a[1..], b));
      }
    }
  }

  lemma ReversedHolds(s: seq<Record>)
    requires Falling(s)
    ensures forall r :: r in Reversed(s) <==> r in s
    ensures forall i, j :: 0 <= i < j < |s| ==> Reversed(s)[i].id < Reversed(s)[j].id
  {
    forall r | r in s ensures r in Reversed(s) {
      var i :| 0 <= i < |s| && s[i] == r;
      assert Reversed(s)[|s| - 1 - i] == r;
    }
  }

  /** What ``ReadBack`` has taken after the records ``before``, of which it needed them all. */
  ghost predicate TakenSo(q: Query, f: First, before: seq<Record>, out: seq<Record>, newest: nat) {
    && Falling(out)
    && (forall r :: r in out <==> r in before && f.Takes(r) && q.Matches(r))
    && (forall r :: r in before && f.Takes(r) ==> r.id <= newest)
    && (newest > 0 ==> exists r :: r in before && f.Takes(r) && r.id == newest)
  }

  /** The newest of ``recs`` that are taken and match, as many as fit, and the newest id taken. */
  ghost predicate BackPage(q: Query, f: First, recs: seq<Record>, page: seq<Record>, n: nat) {
    && Falling(page) && (|page| <= q.limit || |page| <= 1)
    && (forall r :: r in page ==> r in recs && f.Takes(r) && q.Matches(r) && r.id <= n)
    && (forall r :: r in recs && f.Takes(r) && q.Matches(r) ==>
                      r in page || (|page| >= q.limit && forall x :: x in page ==> r.id < x.id))
    && (n > 0 ==> exists r :: r in recs && f.Takes(r) && r.id == n)
    && (forall r :: r in recs && f.Takes(r) ==> r.id <= n)
  }

  lemma {:induction false} ReadBackTakes(q: Query, f: First, before: seq<Record>, recs: seq<Record>, out: seq<Record>, newest: nat)
    requires Falling(before + recs) && TakenSo(q, f, before, out, newest) && (|out| < q.limit || out == [])
    ensures var (page, n) := ReadBack(q, f, recs, out, newest); BackPage(q, f, before + recs, page, n)
    decreases |recs|
  {
    if recs == [] {
      assert before + recs == before;
    } else {
      var r := recs[0];
      assert before + recs == (before + [r]) + recs[1..];
      forall x | x in before ensures x.id > r.id {
        var i :| 0 <= i < |before| && before[i] == x;
        assert (before + recs)[i] == x && (before + recs)[|before|] == r;
      }
      var newest' := if f.Takes(r) then Max(newest, r.id) else newest;
      var out' := if f.Takes(r) && q.Matches(r) then out + [r] else out;
      NextIsTaken(q, f, before, r, out, newest);
      if f.Takes(r) && q.Matches(r) && |out| + 1 >= q.limit {
        FullPage(q, f, before, r, recs[1..], out', newest');
      } else {
        ReadBackTakes(q, f, before + [r], recs[1..], out', newest');
      }
    }
  }

  lemma NextIsTaken(q: Query, f: First, before: seq<Record>, r: Record, out: seq<Record>, newest: nat)
    requires TakenSo(q, f, before, out, newest) && forall x :: x in before ==> x.id > r.id
    ensures TakenSo(q, f, before + [r], if f.Takes(r) && q.Matches(r) then out + [r] else out, if f.Takes(r) then Max(newest, r.id) else newest)
  {
    assert r in before + [r];
    if newest > 0 {
      var x :| x in before && f.Takes(x) && x.id == newest;
      assert x in before + [r];
    }
    forall x | x in out ensures x.id > r.id { assert x in before; }
  }

  lemma FullPage(q: Query, f: First, before: seq<Record>, r: Record, rest: seq<Record>, out: seq<Record>, newest: nat)
    requires Falling((before + [r]) + rest) && TakenSo(q, f, before + [r], out, newest) && r in out
    ensures forall x :: x in (before + [r]) + rest && f.Takes(x) && q.Matches(x) ==> x in out || forall y :: y in out ==> x.id < y.id
    ensures forall x :: x in (before + [r]) + rest && f.Takes(x) ==> x.id <= newest
  {
    var all := (before + [r]) + rest;
    forall x, y | x in all && x !in before + [r] && y in before + [r] ensures x.id < y.id {
      var i :| 0 <= i < |all| && all[i] == x;
      var j :| 0 <= j < |before + [r]| && (before + [r])[j] == y;
      assert all[j] == y;
    }
    forall x | x in all && f.Takes(x) ensures x.id <= newest {
      if x !in before + [r] { assert r in before + [r] && f.Takes(r) && x.id < r.id; }
    }
  }

  /** What reading one set newest first gives, whatever is written and rotated meanwhile. */
  ghost predicate ViewDown(recs: seq<Record>, log: seq<Record>, debugSet: bool, written: nat, gone: nat) {
    && Falling(recs)
    && (forall r :: r in recs ==> r in log && (r.level < INFO <==> debugSet))
    && (forall r :: r in log && (r.level < INFO <==> debugSet) && gone < r.id
                    && (r.id <= written || (recs != [] && r.id <= recs[0].id))
                    ==> r in recs)
  }

  ghost predicate FaithfulFirst(f: First, log: seq<Record>, goneMain: nat, goneDebug: nat) {
    && ViewDown(f.main, log, false, f.written, goneMain)
    && (f.debug.Some? ==> ViewDown(f.debug.value, log, true, f.written, goneDebug))
  }

  /** A first page of ``log``: the newest matching records up to its cursor, as many as fit. */
  ghost predicate NewestPage(q: Query, log: seq<Record>, page: seq<Record>, cursor: nat, goneMain: nat, goneDebug: nat) {
    && (forall i, j :: 0 <= i < j < |page| ==> page[i].id < page[j].id)
    && (|page| <= q.limit || |page| <= 1)
    && (forall r :: r in page ==> r in log && q.Matches(r) && r.id <= cursor)
    && (forall r :: r in log && q.Matches(r) && r.id <= cursor && r.id > (if r.level < INFO then goneDebug else goneMain) ==>
                      r in page || (|page| >= q.limit && forall x :: x in page ==> r.id < x.id))
  }

  lemma FirstPageIsNewest(q: Query, f: First, log: seq<Record>, goneMain: nat, goneDebug: nat, upTo: nat)
    requires f.written <= upTo && forall r :: r in log ==> r.id <= upTo
    requires IsLog(log) && FaithfulFirst(f, log, goneMain, goneDebug) && (f.debug.Some? || q.minLevel >= INFO)
    ensures NewestPage(q, log, FirstAnswer(q, f).out, FirstAnswer(q, f).cursor, goneMain, goneDebug)
    ensures FirstAnswer(q, f).cursor <= upTo
  {
    hide ReadBack, MergeDown, BackPage, Query.Matches, ViewDown, NewestPage;
    var all := f.All();
    FirstAll(f, log, goneMain, goneDebug);
    assert [] + all == all;
    ReadBackTakes(q, f, [], all, [], 0);
    var (page, newest) := ReadBack(q, f, all, [], 0);
    PageOfLog(q, f, log, goneMain, goneDebug, page, newest, upTo);
  }

  /** Nothing that was there is beyond the cursor, unless it came after a line still being written. */
  ghost predicate NoneBeyond(q: Query, log: seq<Record>, cursor: nat, written: nat, goneMain: nat, goneDebug: nat) {
    forall r :: r in log && q.Matches(r) && r.id <= written && r.id > (if r.level < INFO then goneDebug else goneMain) ==> r.id <= cursor
  }

  lemma FirstPageGoesOn(q: Query, f: First, log: seq<Record>, goneMain: nat, goneDebug: nat, r: Record)
    requires IsLog(log) && FaithfulFirst(f, log, goneMain, goneDebug) && (f.debug.Some? || q.minLevel >= INFO)
    requires r in log && q.Matches(r) && r.id <= f.written && r.id > (if r.level < INFO then goneDebug else goneMain)
    requires f.debug.None? || f.ceiling.None? || r.id < f.ceiling.value
    ensures r.id <= FirstAnswer(q, f).cursor
  {
    hide ReadBack, BackPage, FaithfulFirst, TakenSo, First.All;
    FirstAll(f, log, goneMain, goneDebug);
    IsTaken(q, f, log, goneMain, goneDebug, r);
    assert [] + f.All() == f.All();
    NothingTaken(q, f);
    ReadBackTakes(q, f, [], f.All(), [], 0);
    var (page, newest) := ReadBack(q, f, f.All(), [], 0);
    NewestIsRead(q, f, f.All(), page, newest, r);
  }

  lemma NothingTaken(q: Query, f: First)
    ensures TakenSo(q, f, [], [], 0)
  {
  }

  lemma IsTaken(q: Query, f: First, log: seq<Record>, goneMain: nat, goneDebug: nat, r: Record)
    requires IsLog(log) && FaithfulFirst(f, log, goneMain, goneDebug) && (f.debug.Some? || q.minLevel >= INFO)
    requires r in log && q.Matches(r) && r.id <= f.written && r.id > (if r.level < INFO then goneDebug else goneMain)
    requires f.debug.None? || f.ceiling.None? || r.id < f.ceiling.value
    ensures r in f.All() && f.Takes(r)
  {
    FirstAll(f, log, goneMain, goneDebug);
  }

  lemma NewestIsRead(q: Query, f: First, recs: seq<Record>, page: seq<Record>, newest: nat, r: Record)
    requires BackPage(q, f, recs, page, newest) && r in recs && f.Takes(r)
    ensures r.id <= newest
  {
  }

  lemma PageOfLog(q: Query, f: First, log: seq<Record>, goneMain: nat, goneDebug: nat, page: seq<Record>, newest: nat, upTo: nat)
    requires f.written <= upTo && forall r :: r in log ==> r.id <= upTo
    requires FaithfulFirst(f, log, goneMain, goneDebug) && (f.debug.Some? || q.minLevel >= INFO)
    requires BackPage(q, f, f.All(), page, newest)
    requires forall x :: x in f.All() <==> x in f.main || (f.debug.Some? && x in f.debug.value)
    ensures var reached := Max(newest, if f.debug.Some? then 0 else f.written);
            var cursor := if f.debug.Some? && reached > f.written then f.written else reached;
            cursor <= upTo && NewestPage(q, log, Reversed(page), cursor, goneMain, goneDebug)
  {
    hide Query.Matches, ViewDown, NewestPage;
    if newest > 0 {
      var x :| x in f.All() && f.Takes(x) && x.id == newest;
      InLog(f, log, goneMain, goneDebug, x);
    }
    forall r | r in page ensures r in log { InLog(f, log, goneMain, goneDebug, r); }
    forall r | r in log && q.Matches(r) && r.id > (if r.level < INFO then goneDebug else goneMain)
               && (r.id <= newest || (f.debug.None? && r.id <= f.written))
      ensures r in f.All() && f.Takes(r)
    {
      PassedIsTaken(q, f, log, goneMain, goneDebug, newest, r);
    }
    var reached := Max(newest, if f.debug.Some? then 0 else f.written);
    PageUpTo(q, f, log, goneMain, goneDebug, page, newest, if f.debug.Some? && reached > f.written then f.written else reached);
  }

  lemma PageUpTo(q: Query, f: First, log: seq<Record>, goneMain: nat, goneDebug: nat, page: seq<Record>, newest: nat, cursor: nat)
    requires BackPage(q, f, f.All(), page, newest) && forall r :: r in page ==> r in log
    requires forall r ::
               (r in log && q.Matches(r) && r.id > (if r.level < INFO then goneDebug else goneMain) &&
                (r.id <= newest || (f.debug.None? && r.id <= f.written)))
               ==> r in f.All() && f.Takes(r)
    requires forall r :: r in page ==> r.id <= cursor
    requires cursor <= newest || (f.debug.None? && cursor <= f.written)
    ensures NewestPage(q, log, Reversed(page), cursor, goneMain, goneDebug)
  {
    hide Query.Matches, First.Takes, First.All;
    ReversedHolds(page);
  }

  lemma NewestPageGrows(q: Query, log: seq<Record>, more: seq<Record>, page: seq<Record>, cursor: nat, goneMain: nat, goneDebug: nat, upTo: nat)
    requires NewestPage(q, log, page, cursor, goneMain, goneDebug) && GoesOn(log, more, upTo) && cursor <= upTo
    ensures NewestPage(q, more, page, cursor, goneMain, goneDebug)
  {
    forall r | r in more && r !in log ensures r.id > upTo {
      var i :| 0 <= i < |more| && more[i] == r;
    }
  }

  lemma InLog(f: First, log: seq<Record>, goneMain: nat, goneDebug: nat, r: Record)
    requires FaithfulFirst(f, log, goneMain, goneDebug) && (r in f.main || (f.debug.Some? && r in f.debug.value))
    ensures r in log
  {
  }

  /** A record not beyond the cursor was there to be read. */
  lemma PassedIsTaken(q: Query, f: First, log: seq<Record>, goneMain: nat, goneDebug: nat, newest: nat, r: Record)
    requires FaithfulFirst(f, log, goneMain, goneDebug) && (f.debug.Some? || q.minLevel >= INFO)
    requires r in log && q.Matches(r) && r.id > (if r.level < INFO then goneDebug else goneMain)
    requires r.id <= newest || (f.debug.None? && r.id <= f.written)
    requires forall x :: x in f.All() <==> x in f.main || (f.debug.Some? && x in f.debug.value)
    requires newest > 0 ==> exists x :: x in f.All() && f.Takes(x) && x.id == newest
    ensures r in f.All() && f.Takes(r)
  {
    if newest > 0 {
      var x :| x in f.All() && f.Takes(x) && x.id == newest;
      if f.debug.None? {
        var i :| 0 <= i < |f.main| && f.main[i] == x;
      }
    }
  }

  lemma FirstAll(f: First, log: seq<Record>, goneMain: nat, goneDebug: nat)
    requires IsLog(log) && FaithfulFirst(f, log, goneMain, goneDebug)
    ensures Falling(f.All()) && forall r :: r in f.All() <==> r in f.main || (f.debug.Some? && r in f.debug.value)
  {
    if f.debug.Some? {
      forall r, s | r in f.main && s in f.debug.value ensures r.id != s.id {
        if r.id == s.id { SameRecord(log, r, s); }
      }
      MergeDownFalls(f.main, f.debug.value);
    }
  }

  // ----- searching on masked records ----------------------------------------------------------

  lemma {:induction false} MergeDownSameShown(mask: string -> string, a: seq<Record>, b: seq<Record>, a': seq<Record>, b': seq<Record>)
    requires SameShownAll(mask, a, a') && SameShownAll(mask, b, b')
    ensures SameShownAll(mask, MergeDown(a, b), MergeDown(a', b'))
  {
    if a != [] && b != [] {
      assert SameShown(mask, a[0], a'[0]) && SameShown(mask, b[0], b'[0]);
      if b[0].id > a[0].id {
        MergeDownSameShown(mask, a, b[1..], a', b'[1..]);
      } else {
        MergeDownSameShown(mask, a[1..], b, a'[1..], b');
      }
    }
  }

  lemma {:induction false} ReadBackSameShown(mask: string -> string, q: Query, f: First, f': First, recs: seq<Record>, recs': seq<Record>,
                                             out: seq<Record>, out': seq<Record>, newest: nat)
    requires f.debug.Some? == f'.debug.Some? && f.ceiling == f'.ceiling && f.written == f'.written
    requires forall r, r' :: SameShown(mask, r, r') ==> (q.Matches(r) <==> q.Matches(r'))
    requires SameShownAll(mask, recs, recs') && SameShownAll(mask, out, out')
    ensures var (page, n), (page', n') := ReadBack(q, f, recs, out, newest), ReadBack(q, f', recs', out', newest);
            SameShownAll(mask, page, page') && n == n'
  {
    if recs != [] {
      assert SameShown(mask, recs[0], recs'[0]) && SameShownAll(mask, recs[1..], recs'[1..]);
      var r, r' := recs[0], recs'[0];
      if !f.Takes(r) {
        ReadBackSameShown(mask, q, f, f', recs[1..], recs'[1..], out, out', newest);
      } else if !q.Matches(r) {
        ReadBackSameShown(mask, q, f, f', recs[1..], recs'[1..], out, out', Max(newest, r.id));
      } else {
        assert SameShownAll(mask, out + [r], out' + [r']);
        if |out| + 1 < q.limit {
          ReadBackSameShown(mask, q, f, f', recs[1..], recs'[1..], out + [r], out' + [r'], Max(newest, r.id));
        }
      }
    }
  }

  /** The first page of a search: two logs that differ only in what masking hides give the same cursor and pages that
      show the same, whatever was searched for. */
  lemma FirstSearchIndependence(mask: string -> string, found: string -> bool, floors: (int, string) -> bool, minLevel: int,
                                prefixes: seq<string>, limit: nat, f: First, f': First)
    requires f.ceiling == f'.ceiling && f.written == f'.written && SameShownAll(mask, f.main, f'.main)
    requires f.debug.Some? == f'.debug.Some? && (f.debug.Some? ==> SameShownAll(mask, f.debug.value, f'.debug.value))
    ensures var q := PageQuery(mask, found, floors, minLevel, prefixes, limit);
            var x, y := FirstAnswer(q, f), FirstAnswer(q, f');
            x.truncated == y.truncated && x.cursor == y.cursor && SameShownAll(mask, x.out, y.out)
  {
    var q := PageQuery(mask, found, floors, minLevel, prefixes, limit);
    if f.debug.Some? { MergeDownSameShown(mask, f.main, f.debug.value, f'.main, f'.debug.value); }
    ReadBackSameShown(mask, q, f, f', f.All(), f'.All(), [], [], 0);
  }
}
