/** One backup out of two, for an older version: member by member from the newer one, from the older one, or a registry
    merged of both, in which each item comes from the side that owns it. */
module StoreMerge {
  datatype Option<+T> = None | Some(value: T)

  // A list in a store can hold items that are no object. ``body``: all else in an item.
  datatype ConfigEntry = ConfigEntry(id: string, domain: string, body: nat) | NoEntry(body: nat)
  datatype Entity = Entity(id: Option<string>, platform: string, entry: string, body: nat) | NoEntity(body: nat)
  datatype Device = Device(id: string, listed: Option<seq<string>>, single: set<string>, body: nat) | NoDevice(body: nat)

  datatype Data = Data(entries: seq<ConfigEntry>, entities: seq<Entity>, deletedEntities: seq<Entity>,
                       devices: seq<Device>, deletedDevices: seq<Device>, more: nat)

  /** A file: the major version it records, if any, and its data, if that is an object. */
  datatype File = File(major: Option<int>, data: Option<Data>, raw: nat)

  datatype Kind = ConfigEntries | EntityRegistry | DeviceRegistry

  // ----- lists --------------------------------------------------------------------------------

  function Only<T(!new)>(s: seq<T>, p: T -> bool): (r: seq<T>)
    ensures forall x :: x in r <==> x in s && p(x)
  {
    if s == [] then []
    else
      var rest := Only(s[..|s| - 1], p);
      assert s == s[..|s| - 1] + [s[|s| - 1]];
      if p(s[|s| - 1]) then rest + [s[|s| - 1]] else rest
  }

  lemma {:induction false} OnlyOfBoth<T(!new)>(a: seq<T>, b: seq<T>, p: T -> bool)
    ensures Only(a + b, p) == Only(a, p) + Only(b, p)
  {
    if b == [] {
      assert a + b == a;
    } else {
      var rest, last := b[..|b| - 1], b[|b| - 1];
      OnlyOfBoth(a, rest, p);
      assert (a + b)[..|a + b| - 1] == a + rest && (a + b)[|a + b| - 1] == last;
      assert Only(a, p) + (Only(rest, p) + [last]) == Only(a, p) + Only(rest, p) + [last];
    }
  }

  lemma {:induction false} OnlyAll<T(!new)>(s: seq<T>, p: T -> bool)
    requires forall x :: x in s ==> p(x)
    ensures Only(s, p) == s
  {
    if s != [] {
      assert forall x :: x in s[..|s| - 1] ==> x in s;
      OnlyAll(s[..|s| - 1], p);
      assert s == s[..|s| - 1] + [s[|s| - 1]];
    }
  }

  lemma OnlyNone<T(!new)>(s: seq<T>, p: T -> bool)
    requires forall x :: x in s ==> !p(x)
    ensures Only(s, p) == []
  {
    var r := Only(s, p);
    assert forall i :: 0 <= i < |r| ==> r[i] in r;
  }

  // ----- the entity registry ------------------------------------------------------------------

  /** ``domain`` goes back; ``mine``: its config entries, in either file. */
  datatype Going = Going(domain: string, mine: set<string>)
  {
    predicate OwnEntry(e: ConfigEntry) {
      e.ConfigEntry? && e.domain == domain
    }

    predicate OtherEntry(e: ConfigEntry) {
      e.ConfigEntry? && e.domain != domain
    }

    predicate Own(e: Entity) {
      e.Entity? && (e.platform == domain || (e.entry != "" && e.entry in mine))
    }

    predicate Others(e: Entity) {
      !Own(e)
    }

    /** Listed, and by nothing but ``g.mine``. */
    predicate OwnDevice(d: Device) {
      d.Device? && Ids(d) != {} && Ids(d) <= mine
    }

    predicate KeptDevice(d: Device) {
      !OwnDevice(d)
    }

    predicate OthersDevice(d: Device) {
      d.NoDevice? || Ids(d) * mine == {}
    }
  }

  function HeldIds(kept: seq<Entity>): set<Option<string>> {
    set e | e in kept && e.Entity? :: e.id
  }

  function Entities(live: seq<Entity>, older: seq<Entity>, g: Going, byId: bool): seq<Entity> {
    var kept := Only(live, g.Others);
    var held := if byId then HeldIds(kept) else {};
    kept + Only(Only(older, g.Own), (e: Entity) => e.Entity? && e.id !in held)
  }

  /** Every other integration's entities are exactly the live ones, in order; the integration's are the backup's, but for
      those whose entity id another one holds now. */
  lemma EntitiesAreEachTheirs(live: seq<Entity>, older: seq<Entity>, g: Going, byId: bool)
    ensures var merged := Entities(live, older, g, byId);
            && Only(merged, g.Others) == Only(live, g.Others)
            && (forall e :: e in merged && g.Own(e) <==> e in older && g.Own(e) && !(byId && e.id in HeldIds(Only(live, g.Others))))
  {
    var kept := Only(live, g.Others);
    var held := if byId then HeldIds(kept) else {};
    var back := Only(Only(older, g.Own), (e: Entity) => e.Entity? && e.id !in held);
    OnlyOfBoth(kept, back, g.Others);
    OnlyAll(kept, g.Others);
    OnlyNone(back, g.Others);
  }

  ghost predicate DistinctIds(s: seq<Entity>) {
    forall i, j :: 0 <= i < j < |s| && s[i].Entity? && s[j].Entity? && s[i].id.Some? ==> s[i].id != s[j].id
  }

  lemma {:induction false} OnlyDistinct(s: seq<Entity>, p: Entity -> bool)
    requires DistinctIds(s)
    ensures DistinctIds(Only(s, p))
  {
    if s != [] {
      var rest, last := s[..|s| - 1], s[|s| - 1];
      OnlyDistinct(rest, p);
      var r := Only(rest, p);
      forall e | e in r && e.Entity? && e.id.Some? && last.Entity? ensures e.id != last.id {
        var i :| 0 <= i < |rest| && rest[i] == e;
        assert s[i] == e;
      }
      assert forall i :: 0 <= i < |r| ==> r[i] in r;
    }
  }

  /** Entity ids stay pairwise distinct: no item of the backup replaces another integration's. */
  lemma EntityIdsStayDistinct(live: seq<Entity>, older: seq<Entity>, g: Going)
    requires DistinctIds(live) && DistinctIds(older)
    ensures DistinctIds(Entities(live, older, g, true))
  {
    var kept := Only(live, g.Others);
    var held := HeldIds(kept);
    var free := (e: Entity) => e.Entity? && e.id !in held;
    OnlyDistinct(live, g.Others);
    OnlyDistinct(older, g.Own);
    OnlyDistinct(Only(older, g.Own), free);
    var back := Only(Only(older, g.Own), free);
    forall i, j | 0 <= i < |kept| && 0 <= j < |back| && kept[i].Entity? && back[j].Entity? ensures kept[i].id != back[j].id {
      assert kept[i] in kept && kept[i].id in held;
      assert back[j] in back && free(back[j]);
    }
  }

  // ----- the config entries -------------------------------------------------------------------

  function Entries(live: seq<ConfigEntry>, older: seq<ConfigEntry>, g: Going): seq<ConfigEntry> {
    Only(live, g.OtherEntry) + Only(older, g.OwnEntry)
  }

  lemma EntriesAreEachTheirs(live: seq<ConfigEntry>, older: seq<ConfigEntry>, g: Going)
    ensures Only(Entries(live, older, g), g.OtherEntry) == Only(live, g.OtherEntry)
    ensures Only(Entries(live, older, g), g.OwnEntry) == Only(older, g.OwnEntry)
  {
    var others, own := Only(live, g.OtherEntry), Only(older, g.OwnEntry);
    OnlyOfBoth(others, own, g.OtherEntry);
    OnlyOfBoth(others, own, g.OwnEntry);
    OnlyAll(others, g.OtherEntry);
    OnlyNone(own, g.OtherEntry);
    OnlyNone(others, g.OwnEntry);
    OnlyAll(own, g.OwnEntry);
  }

  // ----- the device registry ------------------------------------------------------------------

  function Ids(d: Device): set<string>
    requires d.Device?
  {
    (if d.listed.Some? then set e | e in d.listed.value && e != "" else {}) + d.single
  }

  /** The older item of this id: the last one. */
  function Find(devices: seq<Device>, id: string): (r: Option<Device>)
    ensures r.Some? ==> r.value in devices && r.value.Device? && r.value.id == id
    ensures r.None? ==> forall d :: d in devices && d.Device? ==> d.id != id
  {
    if devices == [] then None
    else
      var last := devices[|devices| - 1];
      if last.Device? && last.id == id then Some(last) else Find(devices[..|devices| - 1], id)
  }

  /** The live device with its list of entries changed: those of ``g.mine`` are taken out, and those that the backup's copy
      of it lists put in. ``sorted``: a set's names in order. */
  function Shared(d: Device, older: seq<Device>, g: Going, sorted: set<string> -> seq<string>): Device {
    if d.Device? && d.listed.Some? && Ids(d) * g.mine != {} then
      var before := Find(older, d.id);
      var theirs := if before.Some? && before.value.Device? then Ids(before.value) * g.mine else {};
      d.(listed := Some(Only(d.listed.value, (e: string) => e !in g.mine) + sorted(theirs)))
    else d
  }

  function KeptDevices(live: seq<Device>, older: seq<Device>, g: Going, sorted: set<string> -> seq<string>): seq<Device> {
    if live == [] then []
    else
      var d := live[|live| - 1];
      KeptDevices(live[..|live| - 1], older, g, sorted) + (if g.OwnDevice(d) then [] else [Shared(d, older, g, sorted)])
  }

  method KeepDevices(live: seq<Device>, older: seq<Device>, g: Going, sorted: set<string> -> seq<string>) returns (kept: seq<Device>)
    ensures kept == KeptDevices(live, older, g, sorted)
  {
    kept := [];
    assert live[..0] == [];
    for i := 0 to |live|
      invariant kept == KeptDevices(live[..i], older, g, sorted)
    {
      var d := live[i];
      assert live[..i + 1][..i] == live[..i];
      if d.NoDevice? {
        kept := kept + [d];
        continue;
      }
      var ids := Ids(d);
      if ids != {} && ids <= g.mine { continue; }  // no entry but those going back: ``Returning`` adds it
      if ids * g.mine != {} && d.listed.Some? { d := Shared(d, older, g, sorted); }
      kept := kept + [d];
    }
    assert live[..|live|] == live;
  }

  function Devices(live: seq<Device>, older: seq<Device>, from: seq<Device>, g: Going, sorted: set<string> -> seq<string>): seq<Device> {
    KeptDevices(live, older, g, sorted) + Only(from, g.OwnDevice)
  }

  /** Every device that is not only the integration's stays, in order, as it is or shared. */
  lemma {:induction false} KeptAreTheOthers(live: seq<Device>, older: seq<Device>, g: Going, sorted: set<string> -> seq<string>)
    ensures var kept, others := KeptDevices(live, older, g, sorted), Only(live, g.KeptDevice);
            |kept| == |others| && forall i :: 0 <= i < |kept| ==> kept[i] == Shared(others[i], older, g, sorted)
  {
    if live != [] {
      KeptAreTheOthers(live[..|live| - 1], older, g, sorted);
    }
  }

  ghost predicate Lists(sorted: set<string> -> seq<string>) {
    forall s: set<string>, e :: e in sorted(s) <==> e in s
  }

  /** What other integrations a device belongs to does not change; of the one that goes back it lists what the backup's item
      of the same id has. */
  lemma SharedStaysShared(d: Device, older: seq<Device>, g: Going, sorted: set<string> -> seq<string>)
    requires Lists(sorted)
    ensures g.OthersDevice(d) ==> Shared(d, older, g, sorted) == d
    ensures d.Device? && !g.OthersDevice(d) ==> Shared(d, older, g, sorted).Device? && Ids(Shared(d, older, g, sorted)) - g.mine == Ids(d) - g.mine
    ensures d.Device? && d.listed.Some? && !g.OthersDevice(d) ==>
              var b := Find(older, d.id);
              forall e :: e in g.mine ==> (e in Shared(d, older, g, sorted).listed.value <==> b.Some? && e in Ids(b.value))
  {
  }

  // ----- one store ----------------------------------------------------------------------------

  /** Which file a merged store is: the current one if the backup's cannot be read; the backup's if the current one is of
      a newer major version or cannot be read; else the current one with the integration's items from the backup. */
  datatype Choice = Current | Older | Merged

  function Choose(live: File, older: File): Choice {
    if older.data.None? then Current
    else if live.data.None? || older.major.None? || live.major.None? || live.major.value > older.major.value then Older
    else Merged
  }

  /** Both can be read, and the older Home Assistant reads the live one. */
  predicate BothRead(live: File, older: File) {
    live.data.Some? && older.data.Some? && live.major.Some? && older.major.Some? && live.major.value <= older.major.value
  }

  method MergeDomainStore(kind: Kind, live: File, older: File, g: Going, sorted: set<string> -> seq<string>) returns (r: File)
    ensures r == MergedFile(kind, live, older, g, sorted)
    ensures older.data.None? ==> r == live
    ensures BothRead(live, older) ==> r == live.(data := r.data) && r.data.Some? && EachTheirs(kind, r.data.value, live.data.value, older.data.value, g, sorted)
    ensures older.data.Some? && !BothRead(live, older) ==> r == older
  {
    MergedIsTheirs(kind, live, older, g, sorted);
    if older.data.None? { return live; }
    if live.data.None? || older.major.None? || live.major.None? || live.major.value > older.major.value { return older; }
    var ld, od := live.data.value, older.data.value;
    var merged := ld;
    match kind {
      case ConfigEntries =>
        merged := ld.(entries := Only(ld.entries, g.OtherEntry) + Only(od.entries, g.OwnEntry));
      case EntityRegistry =>
        merged := ld.(entities := Entities(ld.entities, od.entities, g, true), deletedEntities := Entities(ld.deletedEntities, od.deletedEntities, g, false));
      case DeviceRegistry =>
        var kept := KeepDevices(ld.devices, od.devices, g, sorted);
        var deleted := KeepDevices(ld.deletedDevices, od.devices, g, sorted);
        merged := ld.(devices := kept + Only(od.devices, g.OwnDevice), deletedDevices := deleted + Only(od.deletedDevices, g.OwnDevice));
    }
    r := live.(data := Some(merged));
  }

  function MergedData(kind: Kind, live: Data, older: Data, g: Going, sorted: set<string> -> seq<string>): Data {
    match kind
    case ConfigEntries => live.(entries := Entries(live.entries, older.entries, g))
    case EntityRegistry =>
      live.(entities := Entities(live.entities, older.entities, g, true), deletedEntities := Entities(live.deletedEntities, older.deletedEntities, g, false))
    case DeviceRegistry =>
      live.(devices := Devices(live.devices, older.devices, older.devices, g, sorted),
            deletedDevices := Devices(live.deletedDevices, older.devices, older.deletedDevices, g, sorted))
  }

  /** A merged store; a merged one is the current file but for its data. */
  function MergedFile(kind: Kind, live: File, older: File, g: Going, sorted: set<string> -> seq<string>): (r: File)
    ensures r.major == MajorOf(live, older)
  {
    match Choose(live, older)
    case Current => live
    case Older => older
    case Merged => live.(data := Some(MergedData(kind, live.data.value, older.data.value, g, sorted)))
  }

  /** Each item of a merged store is its owner's: others' exactly as they are live, the integration's own as the backup has
      them, but for an entity whose id another integration holds now. Nothing else in the store is the backup's. */
  ghost predicate EachTheirs(kind: Kind, now: Data, live: Data, was: Data, g: Going, sorted: set<string> -> seq<string>) {
    match kind
    case ConfigEntries =>
      && now == live.(entries := now.entries)
      && Only(now.entries, g.OtherEntry) == Only(live.entries, g.OtherEntry) && Only(now.entries, g.OwnEntry) == Only(was.entries, g.OwnEntry)
    case EntityRegistry =>
      && now == live.(entities := now.entities, deletedEntities := now.deletedEntities)
      && EntitiesTheirs(now.entities, live.entities, was.entities, g, HeldIds(Only(live.entities, g.Others)))
      && EntitiesTheirs(now.deletedEntities, live.deletedEntities, was.deletedEntities, g, {})
      && (DistinctIds(live.entities) && DistinctIds(was.entities) ==> DistinctIds(now.entities))
    case DeviceRegistry =>
      && now == live.(devices := now.devices, deletedDevices := now.deletedDevices)
      && DevicesTheirs(now.devices, live.devices, was.devices, was.devices, g, sorted)
      && DevicesTheirs(now.deletedDevices, live.deletedDevices, was.devices, was.deletedDevices, g, sorted)
  }

  ghost predicate EntitiesTheirs(now: seq<Entity>, live: seq<Entity>, was: seq<Entity>, g: Going, held: set<Option<string>>) {
    && Only(now, g.Others) == Only(live, g.Others)
    && (forall e :: e in now && g.Own(e) <==> e in was && g.Own(e) && e.id !in held)
  }

  ghost predicate DevicesTheirs(now: seq<Device>, live: seq<Device>, older: seq<Device>, from: seq<Device>, g: Going, sorted: set<string> -> seq<string>) {
    var own, others := Only(from, g.OwnDevice), Only(live, g.KeptDevice);
    && |now| == |others| + |own| && now[|others|..] == own
    && forall i :: 0 <= i < |others| ==> now[i] == Shared(others[i], older, g, sorted)
  }

  lemma MergedIsTheirs(kind: Kind, live: File, older: File, g: Going, sorted: set<string> -> seq<string>)
    ensures BothRead(live, older) ==>
              EachTheirs(kind, MergedData(kind, live.data.value, older.data.value, g, sorted), live.data.value, older.data.value, g, sorted)
  {
    if BothRead(live, older) {
      var l, o := live.data.value, older.data.value;
      match kind {
        case ConfigEntries => EntriesAreEachTheirs(l.entries, o.entries, g);
        case EntityRegistry =>
          EntitiesAreEachTheirs(l.entities, o.entities, g, true);
          EntitiesAreEachTheirs(l.deletedEntities, o.deletedEntities, g, false);
          if DistinctIds(l.entities) && DistinctIds(o.entities) { EntityIdsStayDistinct(l.entities, o.entities, g); }
        case DeviceRegistry =>
          KeptAreTheOthers(l.devices, o.devices, g, sorted);
          KeptAreTheOthers(l.deletedDevices, o.devices, g, sorted);
      }
    }
  }

  function MajorOf(live: File, older: File): Option<int> {
    if Choose(live, older) == Older then older.major else live.major
  }

  /** With a major version on either side the older Home Assistant can read the result, unless the backup's file is an
      object without data: then the current file stays, however new. */
  lemma MergedIsReadable(live: File, older: File)
    requires live.major.Some? && older.major.Some?
    ensures MajorOf(live, older).value <= older.major.value <==> older.data.Some? || live.major.value <= older.major.value
  {
  }

  lemma UnreadableStays() returns (live: File, older: File)
    ensures live.major == Some(2) && older.major == Some(1) && MajorOf(live, older) == Some(2)
  {
    live, older := File(Some(2), Some(Data([], [], [], [], [], 0)), 0), File(Some(1), None, 1);
  }

  // ----- the backup ---------------------------------------------------------------------------

  /** ``merged``: the shared registries, by name. ``storage``: whether a member is in .storage. ``forced``: the stores of
      the integration, always from the backup. ``going``: none unless an integration goes back as well. */
  datatype Rules = Rules(merged: map<string, Kind>, storage: string -> bool, forced: string -> bool,
                         going: Option<Going>, sorted: set<string> -> seq<string>)

  datatype From = FromCurrent | FromOlder | FromBoth

  /** Where a member of the backup that is built comes from. */
  function Origin(n: string, current: map<string, File>, older: map<string, File>, rules: Rules): From
    requires n in current || n in older
  {
    if n !in older || !rules.storage(n) then FromCurrent
    else if rules.going.Some? && n in rules.merged && n in current then FromBoth
    else if n !in current || rules.forced(n) then FromOlder
    else if older[n].major.Some? && current[n].major.Some? && current[n].major.value > older[n].major.value then FromOlder
    else FromCurrent
  }

  /** The members of a backup in order, each once. */
  ghost predicate Lists1(names: seq<string>, of: set<string>) {
    (forall n :: n in names <==> n in of) && Once(names)
  }

  /** What the built backup must hold for a member that both backups contribute to. */
  function MergedStore(n: string, current: map<string, File>, older: map<string, File>, rules: Rules): File
    requires (n in current || n in older) && Origin(n, current, older, rules) == FromBoth
  {
    MergedFile(rules.merged[n], current[n], older[n], rules.going.value, rules.sorted)
  }

  /** Which members are not the current ones, and the files that are made of both. */
  method Taken(current: map<string, File>, older: map<string, File>, olderNames: seq<string>, rules: Rules)
    returns (taken: seq<string>, merged: map<string, File>)
    requires Lists1(olderNames, older.Keys)
    ensures forall n :: n in taken <==> n in older && Origin(n, current, older, rules) != FromCurrent
    ensures Once(taken)
    ensures forall n :: n in merged <==> n in older && Origin(n, current, older, rules) == FromBoth
    ensures forall n :: n in merged ==> merged[n] == MergedStore(n, current, older, rules)
  {
    hide MergedFile;
    taken, merged := [], map[];
    for i := 0 to |olderNames|
      invariant Lists1(olderNames, older.Keys)
      invariant forall n :: n in taken <==> n in olderNames[..i] && Origin(n, current, older, rules) != FromCurrent
      invariant Once(taken)
      invariant forall n :: n in merged <==> n in olderNames[..i] && Origin(n, current, older, rules) == FromBoth
      invariant forall n :: n in merged ==> merged[n] == MergedStore(n, current, older, rules)
    {
      var n := olderNames[i];
      Next(olderNames, i);
      var from, file := TakeOne(n, current, older, rules);
      hide Origin;
      if from == FromBoth { merged := merged[n := file]; }
      if from != FromCurrent { taken := taken + [n]; }
    }
    assert olderNames[..|olderNames|] == olderNames;
  }

  lemma Next(names: seq<string>, i: nat)
    requires i < |names| && Once(names)
    ensures names[i] !in names[..i] && forall n :: n in names[..i + 1] <==> n in names[..i] || n == names[i]
  {
    assert names[..i + 1] == names[..i] + [names[i]];
  }

  /** One member of the older backup. */
  method TakeOne(n: string, current: map<string, File>, older: map<string, File>, rules: Rules) returns (from: From, file: File)
    requires n in older
    ensures from == Origin(n, current, older, rules)
    ensures from == FromBoth ==> file == MergedStore(n, current, older, rules)
  {
    from, file := FromCurrent, older[n];
    if !rules.storage(n) { return; }
    if rules.going.Some? && n in rules.merged && n in current {
      file := MergeDomainStore(rules.merged[n], current[n], older[n], rules.going.value, rules.sorted);
      return FromBoth, file;
    }
    if n !in current || rules.forced(n) { return FromOlder, file; }
    var newMajor, oldMajor := current[n].major, older[n].major;
    if newMajor.Some? && oldMajor.Some? && newMajor.value > oldMajor.value { from := FromOlder; }
  }

  datatype Member = Member(name: string, file: File)

  /** The members written so far: none twice, each what its origin says. */
  ghost predicate Written(zip: seq<Member>, current: map<string, File>, older: map<string, File>, rules: Rules) {
    && (forall i, j :: 0 <= i < j < |zip| ==> zip[i].name != zip[j].name)
    && forall i :: 0 <= i < |zip| ==> Rightful(zip[i], current, older, rules)
  }

  ghost predicate Rightful(m: Member, current: map<string, File>, older: map<string, File>, rules: Rules) {
    && (m.name in current || (m.name in older && rules.storage(m.name)))
    && match Origin(m.name, current, older, rules)
       case FromCurrent => m.name in current && m.file == current[m.name]
       case FromOlder => m.file == older[m.name]
       case FromBoth => m.file == MergedStore(m.name, current, older, rules)
  }

  /** The backup to go back with: every current member and every older member of .storage, each once. */
  method StorageForVersion(current: map<string, File>, older: map<string, File>, currentNames: seq<string>, olderNames: seq<string>, rules: Rules)
    returns (zip: seq<Member>, taken: seq<string>)
    requires Lists1(currentNames, current.Keys) && Lists1(olderNames, older.Keys)
    ensures Written(zip, current, older, rules)
    ensures forall n :: Named(zip, n) <==> n in current || (n in older && rules.storage(n))
  {
    var merged;
    taken, merged := Taken(current, older, olderNames, rules);
    var t := taken;
    var ofMerged, ofCurrent := Only(olderNames, n => n in merged), Only(currentNames, n => n !in t);
    var ofOlder := Only(taken, n => n !in merged);
    OnlyOnce(olderNames, n => n in merged);
    OnlyOnce(currentNames, n => n !in t);
    OnlyOnce(taken, n => n !in merged);
    zip := Append([], ofMerged, merged, current, older, rules);
    zip := Append(zip, ofCurrent, current, current, older, rules);
    zip := Append(zip, ofOlder, older, current, older, rules);
  }

  ghost predicate Once(names: seq<string>) {
    forall i, j :: 0 <= i < j < |names| ==> names[i] != names[j]
  }

  lemma {:induction false} OnlyOnce(names: seq<string>, p: string -> bool)
    requires Once(names)
    ensures Once(Only(names, p))
  {
    if names != [] {
      var rest, last := names[..|names| - 1], names[|names| - 1];
      OnlyOnce(rest, p);
      assert last !in rest;
      var r := Only(rest, p);
      assert forall i :: 0 <= i < |r| ==> r[i] in r;
    }
  }

  /** Write ``names`` from ``files``. */
  method Append(before: seq<Member>, names: seq<string>, files: map<string, File>, ghost current: map<string, File>, ghost older: map<string, File>, ghost rules: Rules)
    returns (zip: seq<Member>)
    requires Written(before, current, older, rules) && Once(names)
    requires forall n :: n in names ==> n in files && !Named(before, n) && Rightful(Member(n, files[n]), current, older, rules)
    ensures Written(zip, current, older, rules)
    ensures forall n :: Named(zip, n) <==> Named(before, n) || n in names
  {
    zip := before;
    for i := 0 to |names|
      invariant Written(zip, current, older, rules)
      invariant forall n :: Named(zip, n) <==> Named(before, n) || n in names[..i]
    {
      var n := names[i];
      assert n in names && n !in names[..i];
      NamedMore(zip, Member(n, files[n]));
      forall k | 0 <= k < |zip| ensures zip[k].name != n {
        assert Named(zip, zip[k].name);
      }
      zip := zip + [Member(n, files[n])];
    }
    assert names[..|names|] == names;
  }

  ghost predicate Named(zip: seq<Member>, n: string) {
    exists i :: 0 <= i < |zip| && zip[i].name == n
  }

  lemma NamedMore(zip: seq<Member>, m: Member)
    ensures forall n :: Named(zip + [m], n) <==> Named(zip, n) || n == m.name
  {
    assert (zip + [m])[|zip|] == m;
    forall n | Named(zip, n) ensures Named(zip + [m], n) {
      var i :| 0 <= i < |zip| && zip[i].name == n;
      assert (zip + [m])[i].name == n;
    }
  }

  /** The older Home Assistant can read every store both backups hold with a major version, but for a shared registry
      whose older copy has no data. */
  lemma BackupIsReadable(m: Member, current: map<string, File>, older: map<string, File>, rules: Rules)
    requires Rightful(m, current, older, rules) && m.name in current && m.name in older && rules.storage(m.name)
    requires current[m.name].major.Some? && older[m.name].major.Some?
    ensures m.file.major.Some?
    ensures m.file.major.value <= older[m.name].major.value <==>
              !(Origin(m.name, current, older, rules) == FromBoth && older[m.name].data.None? && current[m.name].major.value > older[m.name].major.value)
  {
  }

  /** A shared registry both backups hold, when an integration is put back: where both files can be read and the older
      version reads the current one, each item is its owner's; otherwise the file is one of the two, whole. */
  lemma RegistryInTheBackup(m: Member, current: map<string, File>, older: map<string, File>, rules: Rules)
    requires Rightful(m, current, older, rules) && m.name in current && m.name in older && rules.storage(m.name)
    requires rules.going.Some? && m.name in rules.merged
    ensures var live, was := current[m.name], older[m.name];
            if BothRead(live, was) then
              m.file == live.(data := m.file.data) && m.file.data.Some? &&
              EachTheirs(rules.merged[m.name], m.file.data.value, live.data.value, was.data.value, rules.going.value, rules.sorted)
            else m.file == if was.data.None? then live else was
  {
    MergedIsTheirs(rules.merged[m.name], current[m.name], older[m.name], rules.going.value, rules.sorted);
  }

  /** Any other store both hold is the current one, unless it is the integration's own or the older version cannot read it;
      what only one of them holds is that one's. */
  lemma StoreInTheBackup(m: Member, current: map<string, File>, older: map<string, File>, rules: Rules)
    requires Rightful(m, current, older, rules) && !(rules.going.Some? && m.name in rules.merged && m.name in current && m.name in older)
    ensures m.name !in older || !rules.storage(m.name) ==> m.file == current[m.name]
    ensures m.name in older && rules.storage(m.name) && (m.name in current ==> rules.forced(m.name)) ==> m.file == older[m.name]
    ensures m.name in older && rules.storage(m.name) && m.name in current && !rules.forced(m.name) ==>
              var now, was := current[m.name], older[m.name];
              m.file == if now.major.Some? && was.major.Some? && was.major.value < now.major.value then was else now
  {
  }
}
