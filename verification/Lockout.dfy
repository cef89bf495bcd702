/** The brake on password attempts: a budget per address, one for all addresses together, and a table of addresses that
    is bounded without ever forgetting one that is locked. */
module Lockout {
  datatype Option<+T> = None | Some(value: T)

  const MAX_FAILURES := 5
  const FAILURE_WINDOW := 900.0
  const GLOBAL_MAX_FAILURES := 30
  const GLOBAL_WINDOW := 300.0
  const MAX_KEYS := 1000

  ghost predicate Sorted(times: seq<real>) {
    forall i, j :: 0 <= i < j < |times| ==> times[i] <= times[j]
  }

  ghost predicate By(times: seq<real>, now: real) {
    Sorted(times) && forall i :: 0 <= i < |times| ==> times[i] <= now
  }

  function Recent(times: seq<real>, now: real, window: real): seq<real> {
    if times == [] then []
    else (if now - times[0] < window then [times[0]] else []) + Recent(times[1..], now, window)
  }

  function Left(times: seq<real>, now: real): int {
    var recent := Recent(times, now, FAILURE_WINDOW);
    if |recent| >= MAX_FAILURES then (FAILURE_WINDOW - (now - recent[|recent| - MAX_FAILURES])).Floor + 1 else 0
  }

  lemma {:induction false} RecentIsASuffix(times: seq<real>, now: real, window: real) returns (from: nat)
    requires Sorted(times)
    ensures from <= |times| && Recent(times, now, window) == times[from..]
    ensures forall k :: 0 <= k < |times| ==> (now - times[k] < window <==> k >= from)
  {
    from := 0;
    if times != [] {
      var tail := times[1..];
      assert times == [times[0]] + tail && Sorted(tail);
      var rest := RecentIsASuffix(tail, now, window);
      if now - times[0] < window {
        AllRecent(times, now, window);
        assert tail != [] ==> tail[0] == times[1] && now - tail[0] < window;
        assert tail[rest..] == tail;
      } else {
        from := rest + 1;
        assert times[from..] == tail[rest..];
        assert forall k :: 0 < k < |times| ==> times[k] == tail[k - 1];
      }
    }
  }

  lemma AllRecent(times: seq<real>, now: real, window: real)
    requires Sorted(times) && times != [] && now - times[0] < window
    ensures forall k :: 0 <= k < |times| ==> now - times[k] < window
  {
  }

  /** The oldest of the last MAX_FAILURES failures is still in the window. */
  ghost predicate Full(times: seq<real>, now: real) {
    |times| >= MAX_FAILURES && now - times[|times| - MAX_FAILURES] < FAILURE_WINDOW
  }

  lemma LeftMeans(times: seq<real>, now: real)
    requires Sorted(times)
    ensures Left(times, now) >= 0 && (Left(times, now) > 0 <==> Full(times, now))
    ensures forall later :: later >= now + Left(times, now) as real ==> !Full(times, later)
    ensures Left(times, now) > 0 ==> forall later :: later < now + Left(times, now) as real - 1.0 ==> Full(times, later)
  {
    var from := RecentIsASuffix(times, now, FAILURE_WINDOW);
  }

  /** Whoever is locked now stays locked as long as it was to be. */
  ghost predicate Kept(before: map<string, seq<real>>, after: map<string, seq<real>>, now: real) {
    forall c :: c in before && Full(before[c], now) ==> c in after && Longer(before[c], after[c])
  }

  ghost predicate Longer(before: seq<real>, after: seq<real>) {
    |before| >= MAX_FAILURES ==> |after| >= MAX_FAILURES && after[|after| - MAX_FAILURES] >= before[|before| - MAX_FAILURES]
  }

  lemma RecentIsBy(times: seq<real>, clock: real, now: real)
    requires By(times, clock) && clock <= now
    ensures var recent := Recent(times, now, FAILURE_WINDOW);
            By(recent, clock) && Sorted(recent) && (Full(times, now) ==> Longer(times, recent)) && (Full(recent, now) <==> Full(times, now))
  {
    hide Recent;
    var from := RecentIsASuffix(times, now, FAILURE_WINDOW);
    assert forall k :: from <= k < |times| ==> times[from..][k - from] == times[k];
  }

  function Entered(failures: map<string, seq<real>>, client: string): seq<real> {
    if client in failures then failures[client] else []
  }

  ghost predicate AtLeast(times: seq<real>, n: nat, since: real) {
    n == 0 || (n <= |times| && times[|times| - n] >= since)
  }

  ghost predicate CountsStill(before: map<string, seq<real>>, after: map<string, seq<real>>, client: string, now: real) {
    forall n: nat, since: real :: now - since < FAILURE_WINDOW && AtLeast(Entered(before, client), n, since) ==> AtLeast(Entered(after, client), n, since)
  }

  lemma RecentCounts(times: seq<real>, now: real, n: nat, since: real)
    requires Sorted(times) && now - since < FAILURE_WINDOW && AtLeast(times, n, since)
    ensures AtLeast(Recent(times, now, FAILURE_WINDOW), n, since)
  {
    var from := RecentIsASuffix(times, now, FAILURE_WINDOW);
  }

  /** No locked address is forgotten, and no address gains a failure. */
  ghost predicate Remembered(before: map<string, seq<real>>, after: map<string, seq<real>>, now: real) {
    && after.Keys <= before.Keys && (forall c :: c in after ==> after[c] == before[c])
    && forall c :: c in before && Full(before[c], now) ==> c in after
  }

  /** The first ``k`` of the unlocked addresses go. */
  lemma FrontGoes(before: map<string, seq<real>>, after: map<string, seq<real>>, unlocked: seq<string>, k: nat, now: real)
    requires (forall c :: c in unlocked <==> c in before && !Full(before[c], now)) && k <= |unlocked|
    requires (forall c :: c in after <==> c in before && c !in unlocked[..k]) && forall c :: c in after ==> after[c] == before[c]
    ensures Remembered(before, after, now) && (k == 0 ==> after == before)
    ensures k == |unlocked| ==> forall c :: c in after ==> Full(after[c], now)
    ensures unlocked == [] <==> forall c :: c in before ==> Full(before[c], now)
  {
    hide Full;
    assert unlocked[..|unlocked|] == unlocked && unlocked[..0] == [];
    if unlocked != [] { assert unlocked[0] in unlocked; }
  }

  lemma KeptBy(before: map<string, seq<real>>, trimmed: map<string, seq<real>>, after: map<string, seq<real>>, client: string, now: real)
    requires Kept(before, trimmed, now) && CountsStill(before, trimmed, client, now) && Remembered(trimmed, after, now)
    requires Entered(after, client) == Entered(trimmed, client)
    ensures Kept(before, after, now) && CountsStill(before, after, client, now)
  {
    assert CountsStill(before, after, client, now);
    hide CountsStill, AtLeast;
    forall c | c in before && Full(before[c], now) ensures c in after && Longer(before[c], after[c]) {
      assert Full(trimmed[c], now);
    }
  }

  /** A failure of ``client`` can be entered: it has a place, or there is one, or one that is not locked can go. */
  ghost predicate Room(failures: map<string, seq<real>>, client: string, now: real) {
    client in failures || |failures| < MAX_KEYS || exists c :: c in failures && !Full(failures[c], now)
  }

  lemma RoomStays(before: map<string, seq<real>>, after: map<string, seq<real>>, client: string, now: real)
    requires Others(before, after, client) && (client in before ==> client in after || |after| < MAX_KEYS)
    requires client !in before ==> after == before
    ensures Room(before, client, now) <==> Room(after, client, now)
  {
    hide Full;
  }

  /** Nothing of another address changed. */
  ghost predicate Others(before: map<string, seq<real>>, after: map<string, seq<real>>, client: string) {
    forall c :: c != client ==> (c in after <==> c in before) && (c in after ==> after[c] == before[c])
  }

  /** The table once the failures of ``client`` that left the window are dropped. */
  function Trimmed(failures: map<string, seq<real>>, client: string, now: real): map<string, seq<real>> {
    var recent := Recent(Entered(failures, client), now, FAILURE_WINDOW);
    if recent != [] then failures[client := recent] else failures - {client}
  }

  lemma TrimmedCounts(failures: map<string, seq<real>>, client: string, clock: real, now: real)
    requires client in failures ==> By(failures[client], clock)
    requires clock <= now
    ensures var after := Trimmed(failures, client, now);
            && Kept(failures, after, now) && CountsStill(failures, after, client, now)
            && By(Entered(after, client), clock) && (client !in failures ==> after == failures)
            && Sorted(Recent(Entered(failures, client), now, FAILURE_WINDOW))
            && (Full(Recent(Entered(failures, client), now, FAILURE_WINDOW), now) <==> Full(Entered(failures, client), now))
  {
    var times := Entered(failures, client);
    assert By(times, clock) && Sorted(times);
    hide By, AtLeast;
    RecentIsBy(times, clock, now);
    TrimKeeps(failures, client, Recent(times, now, FAILURE_WINDOW), now);
    forall n: nat, since: real | now - since < FAILURE_WINDOW && AtLeast(times, n, since)
      ensures AtLeast(Recent(times, now, FAILURE_WINDOW), n, since)
    {
      RecentCounts(times, now, n, since);
    }
  }

  /** One more failure of ``client`` is counted. */
  ghost predicate CountsOneMore(before: map<string, seq<real>>, after: map<string, seq<real>>, client: string, asked: real, now: real) {
    forall n: nat, since: real :: asked - since < FAILURE_WINDOW && since <= now && AtLeast(Entered(before, client), n, since) ==>
      AtLeast(Entered(after, client), n + 1, since)
  }

  lemma OneMoreCounts(before: map<string, seq<real>>, trimmed: map<string, seq<real>>, after: map<string, seq<real>>, client: string, asked: real, now: real)
    requires CountsStill(before, trimmed, client, asked) && Entered(after, client) == Entered(trimmed, client) + [now]
    ensures CountsOneMore(before, after, client, asked, now)
  {
  }

  /** Locked addresses other than ``client`` stay locked as long as they were to be. */
  ghost predicate StayLocked(before: map<string, seq<real>>, after: map<string, seq<real>>, client: Option<string>, from: real) {
    forall c, later :: later >= from && Some(c) != client && c in before && Full(before[c], later) ==> c in after && Full(after[c], later)
  }

  lemma LongerIsLong()
    ensures forall times :: Longer(times, times)
  {
  }

  lemma KeptStayLocked(before: map<string, seq<real>>, mid: map<string, seq<real>>, after: map<string, seq<real>>, client: Option<string>, asked: real, now: real)
    requires Kept(before, mid, asked) && asked <= now
    requires forall c :: Some(c) != client && c in mid && Full(mid[c], now) ==> c in after && Longer(mid[c], after[c])
    ensures StayLocked(before, after, client, now)
  {
    forall c, later | later >= now && Some(c) != client && c in before && Full(before[c], later) ensures c in after && Full(after[c], later) {
      assert Full(before[c], asked) && Full(mid[c], later) && Full(mid[c], now);
    }
  }

  lemma TrimKeeps(failures: map<string, seq<real>>, client: string, recent: seq<real>, now: real)
    requires client in failures ==> (Full(failures[client], now) ==> Longer(failures[client], recent)) && (Full(recent, now) <==> Full(failures[client], now))
    ensures Kept(failures, if recent != [] then failures[client := recent] else failures - {client}, now)
  {
  }

  lemma OneMoreIsBy(times: seq<real>, now: real)
    requires By(times, now)
    ensures By(times + [now], now) && Longer(times, times + [now])
  {
  }

  /** No window of GLOBAL_WINDOW holds more than GLOBAL_MAX_FAILURES of the times. */
  ghost predicate Spaced(times: seq<real>) {
    forall k :: 0 <= k && k + GLOBAL_MAX_FAILURES < |times| ==> times[k + GLOBAL_MAX_FAILURES] - times[k] >= GLOBAL_WINDOW
  }

  /** ``all`` is the end of the history; what is not in it left the window, unless there is too much in it anyway. */
  ghost predicate Keeps(all: seq<real>, history: seq<real>, now: real) {
    && |all| <= |history| && all == history[|history| - |all|..]
    && (|all| >= GLOBAL_MAX_FAILURES || forall k :: 0 <= k < |history| - |all| ==> now - history[k] >= GLOBAL_WINDOW)
  }

  function Newest(all: seq<real>, now: real): seq<real> {
    var recent := Recent(all, now, GLOBAL_WINDOW);
    if |recent| > GLOBAL_MAX_FAILURES then recent[|recent| - GLOBAL_MAX_FAILURES..] else recent
  }

  lemma NewestIsASuffix(all: seq<real>, now: real) returns (from: nat)
    requires Sorted(all)
    ensures from <= |all| <= from + GLOBAL_MAX_FAILURES && Newest(all, now) == all[from..]
    ensures |all| - from == GLOBAL_MAX_FAILURES <==> |all| >= GLOBAL_MAX_FAILURES && now - all[|all| - GLOBAL_MAX_FAILURES] < GLOBAL_WINDOW
    ensures |all| - from < GLOBAL_MAX_FAILURES ==> forall k :: 0 <= k < from ==> now - all[k] >= GLOBAL_WINDOW
  {
    hide Recent;
    from := RecentIsASuffix(all, now, GLOBAL_WINDOW);
    if |all| - from > GLOBAL_MAX_FAILURES {
      var recent, last := all[from..], |all| - from - GLOBAL_MAX_FAILURES;
      assert recent[last..] == all[from + last..];
      from := from + last;
    }
  }

  lemma NewestKeeps(all: seq<real>, history: seq<real>, before: real, now: real)
    requires Keeps(all, history, before) && Sorted(history) && before <= now
    ensures Keeps(Newest(all, now), history, now)
    ensures |Newest(all, now)| >= GLOBAL_MAX_FAILURES <==>
              |history| >= GLOBAL_MAX_FAILURES && now - history[|history| - GLOBAL_MAX_FAILURES] < GLOBAL_WINDOW
    ensures |Newest(all, now)| >= GLOBAL_MAX_FAILURES ==>
              |Newest(all, now)| == GLOBAL_MAX_FAILURES && now - Newest(all, now)[0] < GLOBAL_WINDOW
  {
    hide Newest;
    var start := |history| - |all|;
    assert forall k :: 0 <= k < |all| ==> all[k] == history[start + k];
    var from := NewestIsASuffix(all, now);
    assert all[from..] == history[start + from..];
    if |all| - from < GLOBAL_MAX_FAILURES {
      forall k | 0 <= k < start + from ensures now - history[k] >= GLOBAL_WINDOW {
        if from > 0 {
          assert now - all[from - 1] >= GLOBAL_WINDOW && history[k] <= history[start + from - 1];
        }
      }
    }
  }

  lemma FailedKeeps(all: seq<real>, history: seq<real>, before: real, now: real)
    requires Keeps(all, history, before) && By(history, before) && before <= now
    ensures Keeps(all + [now], history + [now], now) && By(history + [now], now)
    ensures Spaced(history) && |all| < GLOBAL_MAX_FAILURES ==> Spaced(history + [now])
  {
    assert history + [now] == history[..|history| - |all|] + (all + [now]);
  }

  class Auth {
    var failures: map<string, seq<real>>
    var all: seq<real>
    var allLocked: bool
    ghost var history: seq<real>   // every failure there was
    ghost var clock: real          // the last time read

    ghost predicate Valid()
      reads this
    {
      && By(history, clock) && (forall c :: c in failures ==> failures[c] != [] && By(failures[c], clock))
      && |failures| <= MAX_KEYS
      && Keeps(all, history, clock)
    }

    ghost predicate Locked(client: string, now: real)
      reads this
    {
      client in failures && Full(failures[client], now)
    }

    /** All addresses together used up the budget. */
    ghost predicate OverBudget(now: real)
      reads this
    {
      |history| >= GLOBAL_MAX_FAILURES && now - history[|history| - GLOBAL_MAX_FAILURES] < GLOBAL_WINDOW
    }

    ghost predicate RoomFor(client: string, now: real)
      reads this
    {
      Room(failures, client, now)
    }

    constructor ()
      ensures Valid() && history == [] && failures == map[]
    {
      failures, all, allLocked, history, clock := map[], [], false, [], 0.0;
    }

    method GlobalLeft(now: real) returns (left: int)
      requires Valid() && clock <= now
      modifies this`all, this`allLocked, this`clock
      ensures Valid() && clock == now && left >= 0
      ensures left == 0 ==> |all| < GLOBAL_MAX_FAILURES && !allLocked
      ensures left > 0 <==> OverBudget(now)
      ensures forall later :: later >= now + left as real ==> !OverBudget(later)
    {
      NewestKeeps(all, history, clock, now);
      all, clock := Newest(all, now), now;
      if |all| < GLOBAL_MAX_FAILURES {
        allLocked := false;
        return 0;
      }
      left := (GLOBAL_WINDOW - (now - all[0])).Floor + 1;
    }

    /** The addresses not locked, the one whose last failure is oldest first. */
    method Unlocked(now: real) returns (order: seq<string>)
      requires Valid() && clock <= now
      ensures forall c :: c in order <==> c in failures && !Locked(c, now)
      ensures forall i, j :: 0 <= i < j < |order| ==> order[i] != order[j]
      ensures InOrder(order)
    {
      order := [];
      var rest := failures.Keys;
      while rest != {}
        invariant rest <= failures.Keys
        invariant forall c :: c in order <==> c in failures && c !in rest && !Locked(c, now)
        invariant forall i, j :: 0 <= i < j < |order| ==> order[i] != order[j]
        invariant InOrder(order)
        decreases |rest|
      {
        var c :| c in rest;
        rest := rest - {c};
        LeftMeans(failures[c], now);
        if Left(failures[c], now) == 0 { order := Inserted(order, c); }
      }
    }

    function Last(c: string): real
      reads this
    {
      if c in failures && failures[c] != [] then failures[c][|failures[c]| - 1] else 0.0
    }

    ghost predicate InOrder(order: seq<string>)
      reads this
    {
      forall i, j :: 0 <= i < j < |order| ==> Last(order[i]) <= Last(order[j])
    }

    method Inserted(order: seq<string>, c: string) returns (r: seq<string>)
      requires InOrder(order) && c !in order && forall i, j :: 0 <= i < j < |order| ==> order[i] != order[j]
      ensures InOrder(r) && (forall x :: x in r <==> x in order || x == c)
      ensures forall i, j :: 0 <= i < j < |r| ==> r[i] != r[j]
    {
      hide Last;
      var at := |order|;
      while at > 0 && Last(order[at - 1]) > Last(c)
        invariant 0 <= at <= |order| && forall k :: at <= k < |order| ==> Last(order[k]) > Last(c)
      {
        at := at - 1;
      }
      r := order[..at] + [c] + order[at..];
    }

    /** The first ``n`` of ``order`` go. */
    method Drop(order: seq<string>, n: int) returns (k: nat)
      requires (forall i, j :: 0 <= i < j < |order| ==> order[i] != order[j]) && forall i :: 0 <= i < |order| ==> order[i] in failures
      modifies this`failures
      ensures k == (if n <= 0 then 0 else if n < |order| then n else |order|)
      ensures forall c :: c in failures <==> c in old(failures) && c !in order[..k]
      ensures forall c :: c in failures ==> failures[c] == old(failures)[c]
      ensures |failures| == |old(failures)| - k
    {
      k := 0;
      while k < n && k < |order|
        invariant k <= |order| && (k <= n || k == 0)
        invariant forall c :: c in failures <==> c in old(failures) && c !in order[..k]
        invariant forall c :: c in failures ==> failures[c] == old(failures)[c]
        invariant |failures| == |old(failures)| - k
      {
        assert order[k] !in order[..k];
        failures := failures - {order[k]};
        k := k + 1;
      }
    }

    /** What goes is the front of ``Unlocked``, as much of it as brings the table to half its size, so no locked address is in
        it and whoever stays failed later. */
    method Prune(now: real)
      requires Valid() && clock <= now
      modifies this`failures
      ensures Valid() && Remembers(now)
      ensures |failures| <= MAX_KEYS / 2 || forall c :: c in failures ==> Locked(c, now)
      ensures |failures| >= MAX_KEYS / 2 || failures == old(failures)
      ensures |failures| < MAX_KEYS <==> |old(failures)| < MAX_KEYS || exists c :: c in old(failures) && !old(Locked(c, now))
      ensures (forall c :: c in old(failures) ==> old(Locked(c, now))) ==> failures == old(failures)
      ensures forall gone, kept :: gone in old(failures) && gone !in failures && kept in failures && !Locked(kept, now) ==>
                old(Last(gone)) <= old(Last(kept))
    {
      hide Keeps, Full, Remembered;
      ghost var before := failures;
      var unlocked := Unlocked(now);
      var k := Drop(unlocked, |failures| - MAX_KEYS / 2);
      FrontGoes(before, failures, unlocked, k, now);
      assert forall j :: 0 <= j < k ==> unlocked[..k][j] == unlocked[j];
      forall gone, kept | gone in unlocked[..k] && kept in unlocked && kept !in unlocked[..k]
        ensures old(Last(gone)) <= old(Last(kept))
      {
        var i :| 0 <= i < k && unlocked[i] == gone;
        var j :| 0 <= j < |unlocked| && unlocked[j] == kept;
      }
    }

    method TableFull(client: string, now: real) returns (full: bool)
      requires Valid() && clock <= now
      modifies this`failures
      ensures Valid() && Remembers(now)
      ensures client in old(failures) ==> !full && failures == old(failures)
      ensures full ==> client !in failures && forall c :: c in failures ==> Locked(c, now)
      ensures full ==> |failures| >= MAX_KEYS
      ensures !full ==> client in failures || |failures| < MAX_KEYS
      ensures full <==> !old(RoomFor(client, now))
      ensures full ==> failures == old(failures)
    {
      if client in failures || |failures| < MAX_KEYS { return false; }
      Prune(now);
      full := |failures| >= MAX_KEYS;
    }

    twostate predicate Remembers(now: real)
      reads this
    {
      Remembered(old(failures), failures, now)
    }

    /** What ``client`` failed in the window is still counted. */
    twostate predicate StillCounts(client: string, now: real)
      reads this
    {
      CountsStill(old(failures), failures, client, now)
    }

    /** At least ``n`` failures of ``client`` are entered from ``since`` on. */
    ghost predicate Failures(client: string, n: nat, since: real)
      reads this
    {
      AtLeast(Entered(failures, client), n, since)
    }

    method Trim(client: string, now: real) returns (recent: seq<real>)
      requires Valid() && clock <= now
      modifies this`failures
      ensures Valid() && Kept(old(failures), failures, now) && StillCounts(client, now)
      ensures client in old(failures) ==> client in failures || |failures| < MAX_KEYS
      ensures client !in old(failures) ==> failures == old(failures)
      ensures old(Locked(client, now)) ==> client in failures
      ensures Others(old(failures), failures, client)
      ensures recent == if client in failures then failures[client] else []
      ensures Sorted(recent) && (Left(recent, now) > 0 <==> old(Locked(client, now)))
    {
      hide Recent, Left, By, Keeps, CountsStill, Kept;
      TrimmedCounts(failures, client, clock, now);
      recent := Recent(Entered(failures, client), now, FAILURE_WINDOW);
      LeftMeans(recent, now);
      failures := if recent != [] then failures[client := recent] else failures - {client};
    }

    /** The shortest time any address is still refused. */
    method Shortest(now: real) returns (least: int)
      requires Valid() && failures != map[] && forall c :: c in failures ==> Locked(c, now)
      ensures least > 0 && (exists c :: c in failures && least == Left(failures[c], now))
      ensures forall c :: c in failures ==> least <= Left(failures[c], now)
    {
      var rest := failures.Keys;
      var c :| c in rest;
      LeftMeans(failures[c], now);
      least, rest := Left(failures[c], now), rest - {c};
      while rest != {}
        invariant rest <= failures.Keys && least > 0
        invariant exists x :: x in failures && least == Left(failures[x], now)
        invariant forall x :: x in failures && x !in rest ==> least <= Left(failures[x], now)
        decreases |rest|
      {
        c :| c in rest;
        LeftMeans(failures[c], now);
        if Left(failures[c], now) < least { least := Left(failures[c], now); }
        rest := rest - {c};
      }
    }

    /** What ``client`` failed by itself refuses it, or a table in which every place is a locked address. */
    method OwnLeft(client: string, now: real) returns (own: int)
      requires Valid() && clock <= now
      modifies this`failures
      ensures Valid() && Kept(old(failures), failures, now) && StillCounts(client, now)
      ensures own >= 0 && (own > 0 <==> old(Locked(client, now) || !RoomFor(client, now)))
      ensures forall later :: later >= now + own as real ==> !Locked(client, later)
      ensures own == 0 ==> client in failures || |failures| < MAX_KEYS
      ensures client !in failures && |failures| >= MAX_KEYS ==> forall c :: c in failures ==> Locked(c, now)
    {
      hide Left, CountsStill, Full, Kept, By, Keeps;
      var recent := Trim(client, now);
      RoomStays(old(failures), failures, client, now);
      ghost var trimmed := failures;
      own := Left(recent, now);
      assert own >= 0 && forall later :: later >= now + own as real ==> !Full(recent, later) by { LeftMeans(recent, now); }
      if own == 0 {
        var full := TableFull(client, now);
        KeptBy(old(failures), trimmed, failures, client, now);
        if full { own := Shortest(now); }  // no address can be forgotten to make room
      }
      assert client in failures ==> failures[client] == recent;
    }

    /** Seconds ``client`` is still refused; 0: it may try. */
    method LockedFor(client: string, now: real) returns (left: int)
      requires Valid() && clock <= now
      modifies this`failures, this`all, this`allLocked, this`clock
      ensures Valid() && clock == now && Kept(old(failures), failures, now) && StillCounts(client, now)
      ensures left > 0 <==> old(Locked(client, now) || OverBudget(now) || !RoomFor(client, now))
      ensures forall later :: later >= now + left as real ==> !Locked(client, later) && !OverBudget(later)
      ensures client !in failures && |failures| >= MAX_KEYS ==> forall c :: c in failures ==> Locked(c, now)
      ensures left <= 0 ==> |all| < GLOBAL_MAX_FAILURES && !allLocked && (client in failures || |failures| < MAX_KEYS)
    {
      hide CountsStill, Full, Kept;
      var own := OwnLeft(client, now);
      assert forall later :: later >= now + own as real && client in failures && Full(failures[client], later) ==> Locked(client, later);
      var global := GlobalLeft(now);
      left := if own > global then own else global;
    }

    /** Counted for all addresses together. */
    method CountForAll(now: real)
      requires Valid() && clock <= now
      modifies this`history, this`clock, this`all, this`allLocked
      ensures Valid() && clock == now && history == old(history) + [now]
    {
      FailedKeeps(all, history, clock, now);
      history, clock := history + [now], now;
      all := all + [now];
      if !allLocked {
        var left := GlobalLeft(now);
        if left != 0 { allLocked := true; }
      }
    }

    method Failed(client: string, now: real)
      requires Valid() && clock <= now
      modifies this
      ensures Valid() && clock == now && Kept(old(failures), failures, now)
      ensures history == old(history) + [now]
      ensures client in failures <==> old(RoomFor(client, now))
      ensures client in failures ==> failures[client] == (if client in old(failures) then old(failures)[client] else []) + [now]
      ensures client !in failures ==> failures == old(failures)
      ensures forall c :: c in failures && c != client ==> c in old(failures) && failures[c] == old(failures)[c]
    {
      CountForAll(now);
      var full := TableFull(client, now);
      if full { return; }
      Count(client, now);
    }

    method Count(client: string, now: real)
      requires Valid() && clock == now && (client in failures || |failures| < MAX_KEYS)
      modifies this`failures
      ensures Valid() && Kept(old(failures), failures, now)
      ensures failures == old(failures)[client := (if client in old(failures) then old(failures[client]) else []) + [now]]
    {
      var attempts := if client in failures then failures[client] else [];
      OneMoreIsBy(attempts, now);
      failures := failures[client := attempts + [now]];
    }

    method Succeeded(client: string)
      requires Valid()
      modifies this`failures
      ensures Valid() && failures == old(failures) - {client}
    {
      failures := failures - {client};
    }

    /** One try of the password, checked at once. ``asked`` and ``checked``: the time at either. */
    method Try(client: string, right: bool, asked: real, checked: real) returns (refused: bool)
      requires Valid() && Spaced(history) && clock <= asked <= checked
      modifies this
      ensures Valid() && Spaced(history)
      ensures refused <==> old(Locked(client, asked) || OverBudget(asked) || !RoomFor(client, asked))
      ensures history == if refused || right then old(history) else old(history) + [checked]
      ensures !refused && right ==> client !in failures
      ensures refused ==> StillCounts(client, asked)
      ensures !refused && !right ==> CountsOneMore(old(failures), failures, client, asked, checked)
      ensures clock <= checked
      ensures StayLocked(old(failures), failures, if refused then None else Some(client), checked)
    {
      hide Full, Longer, CountsStill, CountsOneMore, StayLocked;
      var left := LockedFor(client, asked);
      ghost var trimmed := failures;
      ghost var but := if left > 0 then None else Some(client);
      if left > 0 {
        KeptStayLocked(old(failures), trimmed, failures, but, asked, checked) by { LongerIsLong(); }
        return true;
      }
      if right {
        Succeeded(client);
      } else {
        Failed(client, checked);
        OneMoreCounts(old(failures), trimmed, failures, client, asked, checked);
      }
      KeptStayLocked(old(failures), trimmed, failures, but, asked, checked) by { LongerIsLong(); }
      refused := false;
    }
  }

  /** Wrong passwords from one address within one window, ``tries`` of them looked at: never more than the address may
      fail, and the next is refused once there were that many. */
  method Guesses(auth: Auth, client: string, times: seq<real>) returns (tries: nat)
    requires auth.Valid() && Spaced(auth.history) && Sorted(times) && times != [] && auth.clock <= times[0]
    requires times[|times| - 1] - times[0] < FAILURE_WINDOW
    modifies auth
    ensures auth.Valid() && Spaced(auth.history)
    ensures tries <= MAX_FAILURES && auth.Failures(client, tries, times[0])
    ensures tries == MAX_FAILURES ==> auth.Locked(client, times[|times| - 1])
    ensures !old(auth.OverBudget(times[0])) && !old(auth.Locked(client, times[0])) && old(auth.RoomFor(client, times[0])) ==> tries > 0
  {
    hide By, Keeps, Spaced, Full, AtLeast, Entered, Room, CountsStill, CountsOneMore, StayLocked;
    tries := 0;
    NothingEntered(auth.failures, client, times[0]);
    for n := 0 to |times|
      invariant auth.Valid() && Spaced(auth.history) && (n < |times| ==> auth.clock <= times[n]) && auth.clock <= times[|times| - 1]
      invariant n == 0 ==> tries == 0 && unchanged(auth)
      invariant n > 0 && !old(auth.OverBudget(times[0])) && !old(auth.Locked(client, times[0])) && old(auth.RoomFor(client, times[0])) ==> tries > 0
      invariant tries <= MAX_FAILURES && auth.Failures(client, tries, times[0])
    {
      ghost var before := auth.failures;
      CountedStep(before, client, tries, times[0], times[n]);
      var refused := auth.Try(client, false, times[n], times[n]);
      TriedStep(before, auth.failures, client, tries, times[0], times[n], refused);
      if !refused { tries := tries + 1; }
    }
    CountedStep(auth.failures, client, tries, times[0], times[|times| - 1]);
  }

  lemma NothingEntered(failures: map<string, seq<real>>, client: string, since: real)
    ensures AtLeast(Entered(failures, client), 0, since)
  {
  }

  /** As many failures in the window as there may be lock the address. */
  lemma CountedStep(failures: map<string, seq<real>>, client: string, n: nat, since: real, now: real)
    requires AtLeast(Entered(failures, client), n, since) && now - since < FAILURE_WINDOW
    ensures n == MAX_FAILURES ==> client in failures && Full(failures[client], now)
  {
  }

  lemma TriedStep(before: map<string, seq<real>>, after: map<string, seq<real>>, client: string, n: nat, since: real, now: real, refused: bool)
    requires AtLeast(Entered(before, client), n, since) && now - since < FAILURE_WINDOW && since <= now
    requires if refused then CountsStill(before, after, client, now) else CountsOneMore(before, after, client, now, now)
    ensures AtLeast(Entered(after, client), if refused then n else n + 1, since)
  {
  }

  datatype Attempt = Attempt(client: string, right: bool, asked: real, checked: real)

  /** Times do not run backwards. */
  ghost predicate InTime(attempts: seq<Attempt>) {
    && (forall i :: 0 <= i < |attempts| ==> attempts[i].asked <= attempts[i].checked)
    && forall i, j :: 0 <= i < j < |attempts| ==> attempts[i].checked <= attempts[j].asked
  }

  /** However many addresses try: no window holds more wrong passwords than the budget, the table keeps its bound, and an
      address locked at the start is refused in every try of its window. */
  method Attempts(auth: Auth, attempts: seq<Attempt>) returns (refused: seq<bool>)
    requires auth.Valid() && Spaced(auth.history) && InTime(attempts)
    requires forall i :: 0 <= i < |attempts| ==> auth.clock <= attempts[i].asked
    modifies auth
    ensures auth.Valid() && Spaced(auth.history) && |auth.failures| <= MAX_KEYS
    ensures |refused| == |attempts|
    ensures forall i :: 0 <= i < |attempts| && old(auth.Locked(attempts[i].client, attempts[i].asked)) ==> refused[i]
  {
    hide By, Keeps, Spaced, Room;
    refused := [];
    for n := 0 to |attempts|
      invariant auth.Valid() && Spaced(auth.history) && |refused| == n
      invariant n == 0 || auth.clock <= attempts[n - 1].checked
      invariant forall i :: n <= i < |attempts| ==> auth.clock <= attempts[i].asked
      invariant forall i :: 0 <= i < n && old(auth.Locked(attempts[i].client, attempts[i].asked)) ==> refused[i]
      invariant forall c, later :: (forall i :: 0 <= i < n ==> attempts[i].checked <= later) && old(auth.Locked(c, later)) ==> auth.Locked(c, later)
    {
      var a := attempts[n];
      var r := auth.Try(a.client, a.right, a.asked, a.checked);
      refused := refused + [r];
    }
  }
}
