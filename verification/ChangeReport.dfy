/** What a switch of an integration's version changed: two snapshots compared by keys that may have changed shape. */
module ChangeReport {
  datatype Option<+T> = None | Some(value: T)

  /** A snapshot's record: an entity with its id and what is compared of it, or something else a file may hold. */
  datatype Rec = Entity(id: Option<string>, fields: map<string, string>) | Other

  datatype Entry = Entry(key: string, rec: Rec)

  /** A dictionary, in the order its keys were put in. */
  type Dict = seq<Entry>

  ghost predicate Distinct(d: Dict) {
    forall i, j :: 0 <= i < j < |d| ==> d[i].key != d[j].key
  }

  function Keys(d: Dict): set<string> {
    set i | 0 <= i < |d| :: d[i].key
  }

  function Find(d: Dict, key: string): (i: int)
    ensures if i < 0 then key !in Keys(d) else i < |d| && d[i].key == key
  {
    if d == [] then -1
    else if d[|d| - 1].key == key then |d| - 1
    else
      var i := Find(d[..|d| - 1], key);
      assert forall j :: 0 <= j < |d| - 1 ==> d[..|d| - 1][j] == d[j];
      i
  }

  function Put(d: Dict, key: string, rec: Rec): Dict {
    if Find(d, key) >= 0 then d[Find(d, key) := Entry(key, rec)] else d + [Entry(key, rec)]
  }

  // ----- renaming keys -----------------------------------------------------------------------

  /** Entry ``i`` gets the key it wants: it has it already, or no entry has it and no earlier one wants it. */
  ghost predicate Granted(b: Dict, newKey: Entry -> string, i: nat)
    requires i < |b|
  {
    newKey(b[i]) == b[i].key || (newKey(b[i]) !in Keys(b) && forall k :: 0 <= k < i ==> newKey(b[k]) != newKey(b[i]))
  }

  ghost function KeyOf(b: Dict, newKey: Entry -> string, i: nat): string
    requires i < |b|
  {
    if Granted(b, newKey, i) then newKey(b[i]) else b[i].key
  }

  /** One pass over the entries with the set of keys in use. A wish is granted if its key is not in that set, which keeps
      the keys distinct, so the map loses no record. */
  method Rekey(b: Dict, newKey: Entry -> string) returns (out: Dict)
    requires Distinct(b)
    ensures Distinct(out) && |out| == |b|
    ensures forall i :: 0 <= i < |b| ==> out[i] == Entry(KeyOf(b, newKey, i), b[i].rec)
  {
    var taken := Keys(b);
    out := [];
    for n := 0 to |b|
      invariant |out| == n && Renamed(b, newKey, out)
      invariant taken == Keys(b) + Keys(out)
    {
      var moved := newKey(b[n]);
      if moved != b[n].key && moved in taken { moved := b[n].key; }
      taken := taken + {moved};
      NextKey(b, newKey, out);
      OneMore(b, newKey, out);
      out := Put(out, moved, b[n].rec);
    }
    RenamedIsDistinct(b, newKey, out);
  }

  /** The first entries, renamed. */
  ghost predicate Renamed(b: Dict, newKey: Entry -> string, out: Dict) {
    |out| <= |b| && forall i :: 0 <= i < |out| ==> out[i] == Entry(KeyOf(b, newKey, i), b[i].rec)
  }

  lemma RenamedIsDistinct(b: Dict, newKey: Entry -> string, out: Dict)
    requires Distinct(b) && Renamed(b, newKey, out)
    ensures Distinct(out)
  {
  }

  /** A key is free for the next entry exactly when it is granted. */
  lemma NextKey(b: Dict, newKey: Entry -> string, out: Dict)
    requires Distinct(b) && Renamed(b, newKey, out) && |out| < |b|
    ensures var e := b[|out|];
            KeyOf(b, newKey, |out|) == if newKey(e) != e.key && newKey(e) in Keys(b) + Keys(out) then e.key else newKey(e)
  {
    var wants := newKey(b[|out|]);
    if wants !in Keys(b) {
      if k :| 0 <= k < |out| && newKey(b[k]) == wants {
        FirstGetsIt(b, newKey, k);
        var f :| 0 <= f <= k && Granted(b, newKey, f) && newKey(b[f]) == wants;
        assert out[f].key == wants;
      }
    }
  }

  lemma OneMore(b: Dict, newKey: Entry -> string, out: Dict)
    requires Distinct(b) && Renamed(b, newKey, out) && |out| < |b|
    ensures var e := Entry(KeyOf(b, newKey, |out|), b[|out|].rec);
            Renamed(b, newKey, out + [e]) && Put(out, e.key, e.rec) == out + [e] && Keys(out + [e]) == Keys(out) + {e.key}
  {
    hide Granted, KeyOf;
    var e := Entry(KeyOf(b, newKey, |out|), b[|out|].rec);
    KeysOfOneMore(out, e);
    RenamedIsDistinct(b, newKey, out + [e]);
    assert e.key !in Keys(out) by {
      assert forall i :: 0 <= i < |out| ==> (out + [e])[i] == out[i];
      assert (out + [e])[|out|] == e;
    }
  }

  lemma {:induction false} FirstGetsIt(b: Dict, newKey: Entry -> string, k: nat)
    requires k < |b| && newKey(b[k]) !in Keys(b)
    ensures exists f :: 0 <= f <= k && Granted(b, newKey, f) && newKey(b[f]) == newKey(b[k])
    decreases k
  {
    if j :| 0 <= j < k && newKey(b[j]) == newKey(b[k]) {
      FirstGetsIt(b, newKey, j);
    } else {
      assert Granted(b, newKey, k);
    }
  }

  lemma KeysOfOneMore(d: Dict, e: Entry)
    ensures Keys(d + [e]) == Keys(d) + {e.key}
  {
    assert forall i :: 0 <= i < |d| ==> (d + [e])[i] == d[i];
    assert (d + [e])[|d|] == e;
  }

  /** What comes before the first dot. */
  function Domain(id: string): string {
    if id == "" || id[0] == '.' then "" else [id[0]] + Domain(id[1..])
  }

  /** A snapshot of an older manager keyed its entities "uid:" and the unique id, without the domain. */
  function CurrentKey(e: Entry, after: set<string>): string {
    if e.key in after || !("uid:" <= e.key) || e.rec.Other? then e.key
    else
      var domain := Domain(if e.rec.id.Some? then e.rec.id.value else "");
      var key := "uid:" + domain + ":" + e.key[4..];
      if domain != "" && key in after then key else e.key
  }

  predicate Shaped(e: Entry, prefix: string, others: set<string>) {
    prefix <= e.key && e.key !in others && e.rec.Entity?
  }

  /** The key of the shape ``prefix`` that only ``a`` holds, of the entity with this id. */
  function Candidate(a: Dict, prefix: string, others: set<string>, id: Option<string>): (k: Option<string>)
    ensures k.Some? ==> exists j :: 0 <= j < |a| && a[j].key == k.value && Shaped(a[j], prefix, others) && a[j].rec.id == id
    ensures k.None? ==> forall j :: 0 <= j < |a| && Shaped(a[j], prefix, others) ==> a[j].rec.id != id
  {
    if a == [] then None
    else if Shaped(a[|a| - 1], prefix, others) && a[|a| - 1].rec.id == id then Some(a[|a| - 1].key)
    else
      var rest := a[..|a| - 1];
      assert forall j :: 0 <= j < |rest| ==> rest[j] == a[j];
      Candidate(rest, prefix, others, id)
  }

  /** The other shape an entity's key can have. */
  function OtherShape(key: string): string {
    if "eid:" <= key then "uid:" else "eid:"
  }

  /** What ``e`` should be called to meet its counterpart in ``a``: the free key under the other prefix with the same entity
      id, unless ``e`` meets an entry as it is. */
  function ShapeKey(b: Dict, a: Dict, e: Entry): string {
    if e.key in Keys(a) || e.rec.Other? || !("eid:" <= e.key || "uid:" <= e.key) then e.key
    else
      var k := Candidate(a, OtherShape(e.key), Keys(b), e.rec.id);
      if k.Some? then k.value else e.key
  }

  ghost predicate UniqueIds(d: Dict) {
    forall i, j :: 0 <= i < j < |d| && d[i].rec.Entity? && d[j].rec.Entity? ==> d[i].rec.id != d[j].rec.id
  }

  /** With unique ids no two entities want one key, and none a key that is taken. */
  lemma ShapeIsGranted(b: Dict, a: Dict, i: nat)
    requires Distinct(b) && Distinct(a) && UniqueIds(b) && i < |b|
    ensures Granted(b, e => ShapeKey(b, a, e), i)
  {
    assert forall k :: 0 <= k < i ==> ShapeKey(b, a, b[k]) == b[k].key || ShapeKey(b, a, b[k]) != ShapeKey(b, a, b[i]);
  }

  /** The other snapshot holds the same entity under a key of the other shape. */
  ghost predicate ShapeChanged(b: Dict, a: Dict, i: nat, j: nat)
    requires i < |b| && j < |a|
  {
    && b[i].rec.Entity? && b[i].key !in Keys(a) && ("eid:" <= b[i].key || "uid:" <= b[i].key)
    && Shaped(a[j], OtherShape(b[i].key), Keys(b)) && a[j].rec.id == b[i].rec.id
  }

  lemma ChangedShapeIsFound(b: Dict, a: Dict, i: nat, j: nat)
    requires UniqueIds(a) && i < |b| && j < |a| && ShapeChanged(b, a, i, j)
    ensures ShapeKey(b, a, b[i]) == a[j].key
  {
  }

  // ----- the report --------------------------------------------------------------------------

  const ENTITY_KEYS: seq<string> := ["unit_of_measurement", "device_class", "state_class", "entity_category"]

  function Get(fields: map<string, string>, key: string): Option<string> {
    if key in fields then Some(fields[key]) else None
  }

  predicate Differs(x: Rec, y: Rec)
    requires x.Entity? && y.Entity?
  {
    exists k :: k in ENTITY_KEYS && Get(x.fields, k) != Get(y.fields, k)
  }

  /** ``kept``: the keys both hold. The lists of entities are given by key, those of fields by service. */
  datatype Report = Report(
    kept: set<string>, added: set<string>, removed: set<string>, renamed: set<string>, changed: set<string>,
    servicesAdded: set<string>, servicesRemoved: set<string>,
    fieldsAdded: map<string, set<string>>, fieldsRemoved: map<string, set<string>>, breaking: bool)

  function At(d: Dict, key: string): Rec
    requires key in Keys(d)
  {
    d[Find(d, key)].rec
  }

  ghost predicate Entities(d: Dict) {
    forall i :: 0 <= i < |d| ==> d[i].rec.Entity?
  }

  /** What the first renaming makes of entry ``i``: an old key becomes today's if ``after`` has it, no entry has it and
      no earlier one wants it. */
  ghost function TodaysKey(before: Dict, after: Dict, i: nat): string
    requires i < |before|
  {
    KeyOf(before, e => CurrentKey(e, Keys(after)), i)
  }

  /** Nothing stands between entry ``i`` and the key ``key`` of the other shape: it keeps its own key in the first
      renaming, and no old key wants ``key``. */
  ghost predicate Free(before: Dict, after: Dict, i: nat, key: string)
    requires i < |before|
  {
    TodaysKey(before, after, i) == before[i].key && forall k :: 0 <= k < |before| ==> CurrentKey(before[k], Keys(after)) != key
  }

  /** The before-snapshot under the keys of the after-snapshot. An entity that only changed the shape of its key is found
      if and only if nothing else took either of its two keys. */
  method Align(before: Dict, after: Dict) returns (b: Dict)
    requires Distinct(before) && Distinct(after) && Entities(before)
    ensures Distinct(b) && |b| == |before| && Entities(b) && forall i :: 0 <= i < |b| ==> b[i].rec == before[i].rec
    ensures before == after ==> b == before
    ensures forall i :: 0 <= i < |b| ==> b[i].key == before[i].key || b[i].key in Keys(after)
    ensures forall i :: 0 <= i < |b| && TodaysKey(before, after, i) in Keys(after) ==> b[i].key == TodaysKey(before, after, i)
    ensures UniqueIds(before) && UniqueIds(after) ==>
              forall i, j :: 0 <= i < |before| && 0 <= j < |after| && ShapeChanged(before, after, i, j) ==>
                (b[i].key == after[j].key <==> Free(before, after, i, after[j].key))
  {
    hide CurrentKey, ShapeKey, ShapeChanged, Granted, Free;
    var current := Rekey(before, e => CurrentKey(e, Keys(after)));
    b := Rekey(current, e => ShapeKey(current, after, e));
    forall i | 0 <= i < |b| ensures b[i].key == current[i].key || b[i].key in Keys(after) { NewKeysAreHeld(current, after, i); }
    forall i | 0 <= i < |b| ensures current[i].key == before[i].key || current[i].key in Keys(after) { NewKeysAreHeld(before, after, i); }
    forall i | 0 <= i < |b| && current[i].key in Keys(after) ensures b[i].key == current[i].key { HeldKeysStay(current, after, i); }
    if UniqueIds(before) && UniqueIds(after) {
      assert UniqueIds(current);
      forall i | 0 <= i < |b| ensures b[i].key == ShapeKey(current, after, current[i]) { ShapeIsGranted(current, after, i); }
      forall i, j | 0 <= i < |before| && 0 <= j < |after| && ShapeChanged(before, after, i, j)
        ensures b[i].key == after[j].key <==> Free(before, after, i, after[j].key)
      {
        FoundIfFree(before, after, current, i, j);
      }
    }
    if before == after {
      forall i | 0 <= i < |before| ensures CurrentKey(before[i], Keys(after)) == before[i].key { HeldKeyStays(after, current, i); }
      assert current == before;
      forall i | 0 <= i < |before| ensures ShapeKey(current, after, before[i]) == before[i].key { HeldKeyStays(after, current, i); }
      assert b == before;
    }
  }

  lemma NewKeysAreHeld(b: Dict, after: Dict, i: nat)
    requires i < |b|
    ensures CurrentKey(b[i], Keys(after)) == b[i].key || CurrentKey(b[i], Keys(after)) in Keys(after)
    ensures ShapeKey(b, after, b[i]) == b[i].key || ShapeKey(b, after, b[i]) in Keys(after)
  {
  }

  lemma HeldKeysStay(b: Dict, after: Dict, i: nat)
    requires i < |b| && b[i].key in Keys(after)
    ensures KeyOf(b, e => ShapeKey(b, after, e), i) == b[i].key
  {
  }

  /** ``current``: the snapshot after the first renaming. */
  lemma FoundIfFree(before: Dict, after: Dict, current: Dict, i: nat, j: nat)
    requires Distinct(before) && Entities(before) && UniqueIds(before) && UniqueIds(after)
    requires |current| == |before| && i < |before| && j < |after| && ShapeChanged(before, after, i, j)
    requires forall k :: 0 <= k < |before| ==> current[k] == Entry(TodaysKey(before, after, k), before[k].rec)
    ensures ShapeKey(current, after, current[i]) == after[j].key <==> Free(before, after, i, after[j].key)
  {
    var key := after[j].key;
    if k :| 0 <= k < |before| && CurrentKey(before[k], Keys(after)) == key {
      FirstGetsIt(before, e => CurrentKey(e, Keys(after)), k);
      assert key in Keys(current);
    } else if TodaysKey(before, after, i) == before[i].key {
      assert key !in Keys(current);
      ChangedShapeIsFound(current, after, i, j);
    }
  }

  lemma HeldKeyStays(after: Dict, b: Dict, i: nat)
    requires i < |after|
    ensures CurrentKey(after[i], Keys(after)) == after[i].key && ShapeKey(b, after, after[i]) == after[i].key
  {
  }

  lemma {:induction false} AsManyKeys(d: Dict)
    requires Distinct(d)
    ensures |Keys(d)| == |d|
  {
    if d != [] {
      var rest, last := d[..|d| - 1], d[|d| - 1];
      AsManyKeys(rest);
      KeysOfOneMore(rest, last);
      assert rest + [last] == d;
      assert last.key !in Keys(rest);
    }
  }

  method Build(before: Dict, after: Dict, servicesBefore: map<string, set<string>>, servicesAfter: map<string, set<string>>)
    returns (r: Report)
    requires Distinct(before) && Distinct(after) && Entities(before) && Entities(after)
    // no entity is lost or counted twice on either side
    ensures |before| == |r.kept| + |r.removed| && |after| == |r.kept| + |r.added|
    ensures r.kept !! r.added && r.kept + r.added == Keys(after) && r.removed !! Keys(after)
    ensures r.renamed <= r.kept && r.changed <= r.kept
    // a changed shape is no change of the entity if and only if nothing holds either key
    ensures UniqueIds(before) && UniqueIds(after) ==> ShapesKept(before, after, r)
    // a snapshot compared with itself
    ensures before == after && servicesBefore == servicesAfter ==>
              !r.breaking && r.added == {} && r.servicesAdded == {} && r.fieldsAdded == map[]
    ensures r.breaking <==> r.removed != {} || r.renamed != {} || r.changed != {} || r.servicesRemoved != {} || r.fieldsRemoved != map[]
    // an entity found under today's key is compared with the one that has it
    ensures forall i, j :: 0 <= i < |before| && 0 <= j < |after| && TodaysKey(before, after, i) == after[j].key ==> Compared(before[i], after[j], r)
    ensures ServicesCompared(servicesBefore, servicesAfter, r)
  {
    hide UniqueIds, ShapeChanged, Free, TodaysKey, Compared, Differs, Find, ServicesCompared, ShapesKept, At;
    var b := Align(before, after);
    r := Summarize(b, after, servicesBefore, servicesAfter);
    TodaysAreCompared(before, after, b, r);
    if UniqueIds(before) && UniqueIds(after) { ShapesAreKept(before, after, b, r); }
  }

  /** ``x`` of the one snapshot and ``y`` of the other are one entity: the report says of it what differs. */
  ghost predicate Compared(x: Entry, y: Entry, r: Report)
    requires x.rec.Entity? && y.rec.Entity?
  {
    y.key in r.kept && (y.key in r.renamed <==> x.rec.id != y.rec.id) && (y.key in r.changed <==> Differs(x.rec, y.rec))
  }

  lemma TodaysAreCompared(before: Dict, after: Dict, b: Dict, r: Report)
    requires Distinct(after) && Distinct(b) && Entities(before) && Entities(after) && Entities(b) && |b| == |before|
    requires forall k :: 0 <= k < |b| ==> b[k].rec == before[k].rec
    requires forall k :: 0 <= k < |b| && TodaysKey(before, after, k) in Keys(after) ==> b[k].key == TodaysKey(before, after, k)
    requires r.kept == Keys(b) * Keys(after)
    requires forall k :: k in r.renamed <==> k in r.kept && At(b, k).id != At(after, k).id
    requires forall k :: k in r.changed <==> k in r.kept && Differs(At(b, k), At(after, k))
    ensures forall i, j :: 0 <= i < |before| && 0 <= j < |after| && TodaysKey(before, after, i) == after[j].key ==> Compared(before[i], after[j], r)
  {
    hide TodaysKey, Differs;
    forall i, j | 0 <= i < |before| && 0 <= j < |after| && TodaysKey(before, after, i) == after[j].key ensures Compared(before[i], after[j], r) {
      assert after[j].key in Keys(after) && b[i].key in Keys(b);
      assert Find(b, after[j].key) == i && Find(after, after[j].key) == j;
    }
  }

  /** What came and went of the services, and for each that stayed of its fields. */
  ghost predicate ServicesCompared(before: map<string, set<string>>, after: map<string, set<string>>, r: Report) {
    && (forall s :: s in r.servicesAdded <==> s in after && s !in before)
    && (forall s :: s in r.servicesRemoved <==> s in before && s !in after)
    && FieldsIn(before, after, r.fieldsAdded) && FieldsIn(after, before, r.fieldsRemoved)
  }

  /** ``fields``: those of a service that ``y`` has and ``x`` has not, for the services of both that have some. */
  ghost predicate FieldsIn(x: map<string, set<string>>, y: map<string, set<string>>, fields: map<string, set<string>>) {
    && (forall s :: s in fields ==> s in x && s in y && fields[s] != {} && forall f :: f in fields[s] <==> f in y[s] && f !in x[s])
    && (forall s, f :: s in x && s in y && f in y[s] && f !in x[s] ==> s in fields)
  }

  ghost predicate ShapesKept(before: Dict, after: Dict, r: Report) {
    forall i, j :: 0 <= i < |before| && 0 <= j < |after| && ShapeChanged(before, after, i, j) ==>
      && (Free(before, after, i, after[j].key) <==> after[j].key in r.kept - r.renamed)
      && (Free(before, after, i, after[j].key) ==> before[i].key !in r.removed)
  }

  lemma ShapesAreKept(before: Dict, after: Dict, b: Dict, r: Report)
    requires Distinct(before) && Distinct(after) && Distinct(b) && Entities(before) && Entities(after) && Entities(b)
    requires UniqueIds(before) && |b| == |before|
    requires forall k :: 0 <= k < |b| ==> b[k].rec == before[k].rec && (b[k].key == before[k].key || b[k].key in Keys(after))
    requires r.kept == Keys(b) * Keys(after) && r.removed == Keys(b) - Keys(after)
    requires forall k :: k in r.renamed <==> k in r.kept && At(b, k).id != At(after, k).id
    requires forall i, j :: 0 <= i < |before| && 0 <= j < |after| && ShapeChanged(before, after, i, j) ==>
               (b[i].key == after[j].key <==> Free(before, after, i, after[j].key))
    ensures ShapesKept(before, after, r)
  {
    hide Free, UniqueIds;
    forall i, j | 0 <= i < |before| && 0 <= j < |after| && ShapeChanged(before, after, i, j)
      ensures b[i].key == after[j].key <==> after[j].key in r.kept - r.renamed
      ensures b[i].key == after[j].key ==> before[i].key !in r.removed
    {
      SameKeySameId(before, after, b, i, j);
    }
  }

  lemma SameKeySameId(before: Dict, after: Dict, b: Dict, i: nat, j: nat)
    requires Distinct(after) && Distinct(b) && Entities(before) && Entities(after) && Entities(b) && UniqueIds(before)
    requires |b| == |before| && (forall k :: 0 <= k < |b| ==> b[k].rec == before[k].rec)
    requires i < |b| && j < |after| && b[i].rec.id == after[j].rec.id
    ensures after[j].key in Keys(after)
    ensures b[i].key == after[j].key <==> after[j].key in Keys(b) && At(b, after[j].key).id == At(after, after[j].key).id
  {
    var key := after[j].key;
    assert Find(after, key) == j;
    if b[i].key == key { assert Find(b, key) == i; }
  }

  /** An entity gained its unique id while another one's old key, renamed first, took the key that goes with it: nothing
      changed but the shape of a key, and the report calls the switch breaking. */
  method TakenShape() returns (before: Dict, after: Dict, r: Report)
    ensures Distinct(before) && Distinct(after) && UniqueIds(before) && UniqueIds(after) && |before| > 0 && |after| > 0
    ensures ShapeChanged(before, after, 0, 0) && !Free(before, after, 0, after[0].key) && r.breaking
  {
    var sensor := id => Entity(Some(id), map[]);
    before := [Entry("eid:sensor.a", sensor("sensor.a")), Entry("uid:x", sensor("sensor.b"))];
    after := [Entry("uid:sensor:x", sensor("sensor.a"))];
    OldKeyTakesIt(before, after);
    r := Build(before, after, map[], map[]);
    assert after[0].key !in r.kept - r.renamed;
  }

  lemma OldKeyTakesIt(before: Dict, after: Dict)
    requires before == [Entry("eid:sensor.a", Entity(Some("sensor.a"), map[])), Entry("uid:x", Entity(Some("sensor.b"), map[]))]
    requires after == [Entry("uid:sensor:x", Entity(Some("sensor.a"), map[]))]
    ensures CurrentKey(before[1], Keys(after)) == after[0].key && ShapeChanged(before, after, 0, 0)
  {
    assert Domain("sensor.b") == "sensor" by {
      assert Domain("or.b") == "or" by { assert Domain(".b") == "" && Domain("r.b") == "r"; }
      assert Domain("sor.b") == "sor" && Domain("nsor.b") == "nsor" && Domain("ensor.b") == "ensor";
    }
    assert "uid:" + "sensor" + ":" + before[1].key[4..] == "uid:sensor:x";
    assert after[0].key in Keys(after);
  }

  method Summarize(b: Dict, after: Dict, servicesBefore: map<string, set<string>>, servicesAfter: map<string, set<string>>)
    returns (r: Report)
    requires Distinct(b) && Distinct(after) && Entities(b) && Entities(after)
    ensures |b| == |r.kept| + |r.removed| && |after| == |r.kept| + |r.added|
    ensures r.kept == Keys(b) * Keys(after) && r.added == Keys(after) - Keys(b) && r.removed == Keys(b) - Keys(after)
    ensures forall k :: k in r.renamed <==> k in r.kept && At(b, k).id != At(after, k).id
    ensures forall k :: k in r.changed <==> k in r.kept && Differs(At(b, k), At(after, k))
    ensures ServicesCompared(servicesBefore, servicesAfter, r)
    ensures b == after && servicesBefore == servicesAfter ==>
              !r.breaking && r.added == {} && r.servicesAdded == {} && r.fieldsAdded == map[]
    ensures r.breaking <==> r.removed != {} || r.renamed != {} || r.changed != {} || r.servicesRemoved != {} || r.fieldsRemoved != map[]
  {
    var kept := Keys(b) * Keys(after);
    Counts(b, after);
    var renamed, changed := Compare(b, after, kept);
    var removed, servicesRemoved, fieldsRemoved := Keys(b) - Keys(after), servicesBefore.Keys - servicesAfter.Keys, Gained(servicesAfter, servicesBefore);
    r := Report(kept, Keys(after) - Keys(b), removed, renamed, changed,
                servicesAfter.Keys - servicesBefore.Keys, servicesRemoved, Gained(servicesBefore, servicesAfter), fieldsRemoved,
                removed != {} || renamed != {} || changed != {} || servicesRemoved != {} || fieldsRemoved != map[]);
  }

  /** The fields in ``y`` only, of the services both have. */
  function Gained(x: map<string, set<string>>, y: map<string, set<string>>): (r: map<string, set<string>>)
    ensures FieldsIn(x, y, r)
    ensures x == y ==> r == map[]
  {
    assert forall s, f :: s in x && s in y && f in y[s] && f !in x[s] ==> f in y[s] - x[s];
    map s | s in x && s in y && y[s] - x[s] != {} :: y[s] - x[s]
  }

  lemma Counts(b: Dict, a: Dict)
    requires Distinct(b) && Distinct(a)
    ensures |b| == |Keys(b) * Keys(a)| + |Keys(b) - Keys(a)| && |a| == |Keys(b) * Keys(a)| + |Keys(a) - Keys(b)|
  {
    AsManyKeys(b);
    AsManyKeys(a);
    assert Keys(b) == Keys(b) * Keys(a) + (Keys(b) - Keys(a));
    assert Keys(a) == Keys(b) * Keys(a) + (Keys(a) - Keys(b));
  }

  /** The keys both hold whose entity has another id, and those where what is compared differs. */
  method Compare(b: Dict, a: Dict, kept: set<string>) returns (renamed: set<string>, changed: set<string>)
    requires Entities(b) && Entities(a) && kept <= Keys(b) && kept <= Keys(a)
    ensures forall k :: k in renamed <==> k in kept && At(b, k).id != At(a, k).id
    ensures forall k :: k in changed <==> k in kept && Differs(At(b, k), At(a, k))
  {
    renamed := set k | k in kept && At(b, k).id != At(a, k).id;
    changed := {};
    var rest := kept;
    while rest != {}
      invariant rest <= kept
      invariant forall k :: k in changed <==> k in kept && k !in rest && Differs(At(b, k), At(a, k))
      decreases |rest|
    {
      var key :| key in rest;
      rest := rest - {key};
      if Differs(At(b, key), At(a, key)) { changed := changed + {key}; }
    }
  }
}
