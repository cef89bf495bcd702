/** The restorable files of a volume, and what wiping and restoring mean for them.
    A path belongs to exactly one of the four parts a restore can select: the three
    directories a backup covers, and the YAML files beside them. Everything a backup
    excludes is outside this map. */
module ConfigFiles {
  datatype Option<+T> = None | Some(value: T)

  datatype Part = Storage | Components | Manager | Yaml

  datatype Path = Path(part: Part, name: string)

  type Content = string

  type Files = map<Path, Content>

  /** Settings and broker credentials: a backup without them leaves the live ones alone. */
  predicate Secret(p: Path) {
    p == Path(Manager, "settings.json") || p == Path(Manager, "mqtt.json")
  }

  /** What makes an archive a backup of this tool: its state marker and a file of .storage. */
  predicate IsBackup(a: Files) {
    Path(Manager, "state.json") in a && exists p :: p in a && p.part == Storage
  }

  function Select(a: Files, parts: set<Part>): Files {
    map p | p in a && p.part in parts :: a[p]
  }

  /** Whether a wipe for an archive with these member names removes ``p``. */
  predicate Wiped(p: Path, names: set<Path>, parts: set<Part>) {
    if p.part == Yaml then Yaml in parts
    else (exists n :: n in names && n.part == p.part) && !(Secret(p) && p !in names)
  }

  function AfterWipe(c: Files, names: set<Path>, parts: set<Part>): Files {
    map p | p in c && !Wiped(p, names, parts) :: c[p]
  }

  /** The configuration a restore of ``a`` is meant to leave behind. */
  function Restored(c: Files, a: Files, parts: set<Part>): Files {
    AfterWipe(c, Select(a, parts).Keys, parts) + Select(a, parts)
  }

  /** A wipe cut short: files the wipe keeps are there, the others may or may not be. */
  ghost predicate PartlyWiped(was: Files, now: Files, names: set<Path>, parts: set<Part>) {
    && (forall p :: p in now ==> p in was && now[p] == was[p])
    && (forall p :: p in was && !Wiped(p, names, parts) ==> p in now)
  }

  /** Moves cut short: some of ``files`` have arrived, nothing else changed. */
  ghost predicate PartlyMoved(was: Files, now: Files, files: Files) {
    && now.Keys <= was.Keys + files.Keys
    && was.Keys <= now.Keys
    && (forall p :: p in now ==> (p in files && now[p] == files[p]) || (p in was && now[p] == was[p]))
  }

  /** Everything in ``c`` came from the configuration before the restore or from the archive,
      and the parts that were not selected are untouched. */
  ghost predicate Mixed(c: Files, before: Files, a: Files, parts: set<Part>) {
    && (forall p :: p in c ==> (p in before && c[p] == before[p]) || (p in Select(a, parts) && c[p] == a[p]))
    && (forall p :: p in before && p.part !in parts ==> p in c)
  }

  lemma Untouched(before: Files, a: Files, parts: set<Part>)
    ensures Mixed(before, before, a, parts) && KeepsUntouched(before, before, a, parts)
  {
  }

  /** Every one of ``files`` is in place. */
  ghost predicate Keeps(c: Files, files: Files) {
    forall p :: p in files ==> p in c && c[p] == files[p]
  }

  lemma KeepsABackup(c: Files, files: Files)
    ensures Keeps(c, files) && IsBackup(files) ==> IsBackup(c)
  {
  }

  lemma RestoredIsKept(c: Files, a: Files, parts: set<Part>)
    ensures Keeps(Restored(c, a, parts), Select(a, parts))
  {
  }

  /** No file the restore of ``a`` would keep has been lost. */
  ghost predicate KeepsUntouched(c: Files, before: Files, a: Files, parts: set<Part>) {
    forall p :: p in before && !Wiped(p, Select(a, parts).Keys, parts) ==> p in c
  }

  /** Files of ``c`` that a rollback by the copy's own names leaves lying around. */
  ghost predicate NoResidue(c: Files, before: Files, parts: set<Part>) {
    forall p :: p in c && p !in before ==> Wiped(p, Select(before, parts).Keys, parts)
  }

  lemma SelectedIsWiped(p: Path, a: Files, parts: set<Part>)
    requires p in Select(a, parts)
    ensures Wiped(p, Select(a, parts).Keys, parts)
  {
  }

  lemma WipedIsSelectedPart(p: Path, a: Files, parts: set<Part>)
    requires Wiped(p, Select(a, parts).Keys, parts)
    ensures p.part in parts
  {
  }

  /** What a restore means, part by part: a part the archive covers becomes the archive's (live
      secrets it lacks stay), selected YAML becomes the archive's YAML, and the rest is as it was. */
  lemma RestoredMeaning(c: Files, a: Files, parts: set<Part>, p: Path)
    ensures p in a && p.part in parts ==> p in Restored(c, a, parts) && Restored(c, a, parts)[p] == a[p]
    ensures p.part !in parts || (p.part != Yaml && forall n :: n in a ==> n.part != p.part)
            ==> (p in Restored(c, a, parts) <==> p in c) && (p in c ==> Restored(c, a, parts)[p] == c[p])
    ensures p.part in parts && p !in a && (p.part == Yaml || exists n :: n in a && n.part == p.part)
            ==> (p in Restored(c, a, parts) <==> p in c && Secret(p))
  {
  }

  /** However far an earlier attempt got, applying the restore again gives the same configuration,
      exactly when none of the files it keeps was lost meanwhile. */
  lemma RetryIsExact(c: Files, before: Files, a: Files, parts: set<Part>)
    requires Mixed(c, before, a, parts)
    ensures Restored(c, a, parts) == Restored(before, a, parts) <==> KeepsUntouched(c, before, a, parts)
  {
  }

  /** What a restore leaves, from however far an earlier attempt got, is a backup's worth again. */
  lemma RestoredIsBackup(c: Files, before: Files, a: Files, parts: set<Part>)
    requires Mixed(c, before, a, parts) && IsBackup(before) && IsBackup(a)
    ensures IsBackup(Restored(c, a, parts))
  {
    var state := Path(Manager, "state.json");
    var p :| p in a && p.part == Storage;
    var q :| q in before && q.part == Storage;
    if Storage in parts { assert p in Select(a, parts); } else { assert q in Restored(c, a, parts); }
    if Manager in parts { assert state in Select(a, parts); }
  }

  /** A rollback that knows the archive's names puts back exactly the configuration from before. */
  lemma RollbackIsExact(c: Files, before: Files, a: Files, parts: set<Part>)
    requires Mixed(c, before, a, parts)
    ensures AfterWipe(c, Select(a, parts).Keys, parts) + Select(before, parts) == before
  {
  }

  /** A rollback that never read the archive wipes by the copy's own names: every original file is
      back, and the result is exact if and only if no file of the archive alone escapes that wipe. */
  lemma BlindRollback(c: Files, before: Files, a: Files, parts: set<Part>)
    requires Mixed(c, before, a, parts)
    ensures var r := AfterWipe(c, Select(before, parts).Keys, parts) + Select(before, parts);
            && (forall p :: p in before ==> p in r && r[p] == before[p])
            && (r == before <==> NoResidue(c, before, parts))
  {
  }

  lemma MixedUnderWipe(was: Files, now: Files, names: set<Path>, before: Files, a: Files, parts: set<Part>)
    requires Mixed(was, before, a, parts)
    requires PartlyWiped(was, now, names, parts)
    requires forall n :: n in names ==> n.part in parts
    ensures Mixed(now, before, a, parts)
    ensures KeepsUntouched(was, before, a, parts) && names == Select(a, parts).Keys ==> KeepsUntouched(now, before, a, parts)
  {
  }

  lemma MixedUnderMove(was: Files, now: Files, files: Files, before: Files, a: Files, parts: set<Part>)
    requires Mixed(was, before, a, parts)
    requires PartlyMoved(was, now, files)
    requires files == Select(a, parts) || files == Select(before, parts)
    ensures Mixed(now, before, a, parts)
    ensures KeepsUntouched(was, before, a, parts) ==> KeepsUntouched(now, before, a, parts)
  {
  }

  /** A first attempt killed while moving, then one that cannot read the archive: a credentials
      file only the archive had stays behind, so that rollback is not exact. */
  lemma BlindRollbackLeavesASecret()
    ensures var before: Files := map[Path(Manager, "state.json") := "s", Path(Storage, "core") := "c"];
            var a: Files := before[Path(Manager, "mqtt.json") := "m"];
            var parts := {Manager};
            && Mixed(a, before, a, parts)
            && !NoResidue(a, before, parts)
            && Path(Manager, "mqtt.json") in AfterWipe(a, Select(before, parts).Keys, parts) + Select(before, parts)
  {
    var before: Files := map[Path(Manager, "state.json") := "s", Path(Storage, "core") := "c"];
    var a: Files := before[Path(Manager, "mqtt.json") := "m"];
    var p := Path(Manager, "mqtt.json");
    assert p in a && p !in before && Secret(p);
    assert p !in Select(before, {Manager}).Keys;
  }

  /** A blind rollback killed while it wipes, then a retry that succeeds: the wipe went by the copy's
      names and took a directory the archive does not cover, which the restore then never brings back. */
  lemma RetryAfterCutBlindRollbackLosesATree()
    ensures var before: Files := map[Path(Components, "x") := "1", Path(Storage, "core") := "c"];
            var a: Files := map[Path(Storage, "core") := "d"];
            var parts := {Storage, Components};
            var cut: Files := map[Path(Storage, "core") := "c"];
            && PartlyWiped(before, cut, Select(before, parts).Keys, parts)
            && Restored(before, a, parts) == before[Path(Storage, "core") := "d"]
            && Restored(cut, a, parts) == a
  {
    var before: Files := map[Path(Components, "x") := "1", Path(Storage, "core") := "c"];
    var a: Files := map[Path(Storage, "core") := "d"];
    var parts := {Storage, Components};
    var cut: Files := map[Path(Storage, "core") := "c"];
    assert Path(Components, "x") in Select(before, parts);
    assert Select(a, parts) == a;
    assert Path(Storage, "core") in Select(a, parts).Keys;
  }
}
