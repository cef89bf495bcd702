/** A value, the form of it that may be shown, and the way back from an edited form: a masked text is looked up where it
    stands in the old value's masked form, and anything else is taken as typed. */
module Unmask {
  datatype J = Null | Bool(b: bool) | Num(n: int) | Str(s: string) | Arr(a: seq<J>) | Obj(m: map<string, J>)

  /** ``secret``: a key whose value is masked whole. ``text``: the secrets inside a text masked. */
  datatype Rules = Rules(secret: string -> bool, text: string -> string)

  predicate Empty(v: J) {
    v == Null || v == Str("") || v == Arr([]) || v == Obj(map[])
  }

  /** Stays an object even under a secret key, since its own keys say what to mask. */
  predicate NamesItsSecrets(v: J, rules: Rules) {
    v.Obj? && exists k :: k in v.m && rules.secret(k)
  }

  function ScrubField(k: string, v: J, rules: Rules): J
    decreases v, 1
  {
    if rules.secret(k) && !Empty(v) && !v.Bool? && !NamesItsSecrets(v, rules) then Str("***") else Scrub(v, rules)
  }

  function Scrub(v: J, rules: Rules): J
    decreases v, 0
  {
    match v
    case Obj(m) => Obj(map k | k in m :: ScrubField(k, m[k], rules))
    case Arr(a) => Arr(seq(|a|, i requires 0 <= i < |a| => Scrub(a[i], rules)))
    case Str(s) => Str(rules.text(s))
    case _ => v
  }

  predicate Holds3(s: string, i: int) {
    0 <= i <= |s| - 3 && s[i] == s[i + 1] == s[i + 2] == '*'
  }

  predicate Masked(s: string) {
    exists i :: 0 <= i < |s| && Holds3(s, i)
  }

  datatype Step = Key(key: string) | At(index: nat)

  /** The value, and the places of masked texts that could not be matched. */
  datatype Result = Result(value: J, misses: set<seq<Step>>)

  function Field(stored: J, k: string): J {
    if stored.Obj? && k in stored.m then stored.m[k] else Null
  }

  /** In the same order, each item as it was shown or as it is in the backup. */
  predicate SameOrder(given: seq<J>, stored: seq<J>, rules: Rules) {
    |given| == |stored| && forall i :: 0 <= i < |given| ==> given[i] == Scrub(stored[i], rules) || given[i] == stored[i]
  }

  function Count(g: J, stored: seq<J>, rules: Rules): nat {
    if stored == [] then 0 else (if Scrub(stored[0], rules) == g then 1 else 0) + Count(g, stored[1..], rules)
  }

  function Index(g: J, stored: seq<J>, rules: Rules): (r: nat)
    requires Count(g, stored, rules) > 0
    ensures r < |stored| && Scrub(stored[r], rules) == g
  {
    if Scrub(stored[0], rules) == g then 0 else 1 + Index(g, stored[1..], rules)
  }

  function Back(given: J, stored: J, rules: Rules, path: seq<Step>): Result
    decreases given, 1
  {
    match given
    case Obj(m) =>
      var all := map k | k in m :: BackField(k, m[k], stored, rules, path);
      Result(Obj(map k | k in m :: all[k].value), set k, p | k in m && p in all[k].misses :: p)
    case Arr(a) =>
      var st := if stored.Arr? then stored.a else [];
      if SameOrder(a, st, rules) then Result(Arr(st), {})
      else
        var all := seq(|a|, i requires 0 <= i < |a| => BackItem(a[i], st, rules, path + [At(i)]));
        Result(Arr(seq(|a|, i requires 0 <= i < |a| => all[i].value)), set i, p | 0 <= i < |a| && p in all[i].misses :: p)
    case Str(s) =>
      if stored.Str? && stored != given && Scrub(stored, rules) == given then Result(stored, {})
      else Result(given, if Masked(s) && stored != given then {path} else {})
    case _ => Result(given, {})
  }

  function BackField(k: string, v: J, stored: J, rules: Rules, path: seq<Step>): Result
    decreases v, 2
  {
    if stored.Obj? && k in stored.m && v != stored.m[k] && v == ScrubField(k, stored.m[k], rules) then Result(stored.m[k], {})
    else Back(v, Field(stored, k), rules, path + [Key(k)])
  }

  /** Lists have no names to go by: an old item as it is, or the only one with that masked form. */
  function BackItem(g: J, stored: seq<J>, rules: Rules, path: seq<Step>): Result
    decreases g, 2
  {
    if g in stored then Result(g, {})
    else if Count(g, stored, rules) == 1 then Result(stored[Index(g, stored, rules)], {})
    else Back(g, Null, rules, path)
  }

  // ----- what is shown ------------------------------------------------------------------------

  function Place(v: J, path: seq<Step>): J
    decreases |path|
  {
    if path == [] then v
    else if path[0].Key? then Place(Field(v, path[0].key), path[1..])
    else if v.Arr? && path[0].index < |v.a| then Place(v.a[path[0].index], path[1..])
    else Null
  }

  /** The last step of ``path`` is a secret key, and the value there says something: a number, a list, a text that is not
      empty, or an object with no secret keys of its own. */
  ghost predicate Secret(v: J, rules: Rules, path: seq<Step>) {
    && path != [] && path[|path| - 1].Key? && rules.secret(path[|path| - 1].key)
    && match Place(v, path)
       case Null | Bool(_) => false
       case Num(_) => true
       case Str(s) => s != ""
       case Arr(a) => a != []
       case Obj(m) => m != map[] && forall k :: k in m ==> !rules.secret(k)
  }

  /** The mask stands at ``path`` or at a place it is inside. */
  ghost predicate Hidden(shown: J, path: seq<Step>) {
    exists n :: 0 <= n <= |path| && Place(shown, path[..n]) == Str("***")
  }

  lemma {:induction false} NothingInNull(path: seq<Step>)
    ensures Place(Null, path) == Null
  {
    if path != [] { NothingInNull(path[1..]); }
  }

  /** Whatever is under a secret key is not shown. */
  lemma {:induction false} SecretsAreHidden(v: J, rules: Rules, path: seq<Step>)
    requires Secret(v, rules, path)
    ensures Hidden(Scrub(v, rules), path)
    decreases |path|
  {
    var shown := Scrub(v, rules);
    match path[0]
    case Key(k) =>
      var x, y := Field(v, k), Field(shown, k);
      NothingInNull(path[1..]);
      assert v.Obj? && k in v.m && y == ScrubField(k, x, rules);
      if y == Str("***") {
        assert path[..1][1..] == [] && Place(shown, path[..1]) == Str("***");
      } else if |path| > 1 {
        SecretsAreHidden(x, rules, path[1..]);
        OneFurther(shown, y, path);
      } else {
        assert Place(v, path) == Place(x, path[1..]) == x;
      }
    case At(i) =>
      SecretsAreHidden(v.a[i], rules, path[1..]);
      OneFurther(shown, shown.a[i], path);
  }

  lemma OneFurther(shown: J, inner: J, path: seq<Step>)
    requires path != [] && Hidden(inner, path[1..])
    requires match path[0] case Key(k) => inner == Field(shown, k) case At(i) => shown.Arr? && i < |shown.a| && inner == shown.a[i]
    ensures Hidden(shown, path)
  {
    var n :| 0 <= n <= |path[1..]| && Place(inner, path[1..][..n]) == Str("***");
    assert path[..n + 1][1..] == path[1..][..n] && path[..n + 1][0] == path[0];
  }

  /** What no secret key leads to is shown as it is, but for the secrets inside its texts. */
  lemma {:induction false} TheRestIsShown(v: J, rules: Rules, path: seq<Step>)
    requires forall i :: 0 <= i < |path| && path[i].Key? ==> !rules.secret(path[i].key)
    ensures match Place(v, path)
            case Str(s) => Place(Scrub(v, rules), path) == Str(rules.text(s))
            case Obj(m) => var y := Place(Scrub(v, rules), path); y.Obj? && y.m.Keys == m.Keys
            case Arr(a) => var y := Place(Scrub(v, rules), path); y.Arr? && |y.a| == |a|
            case x => Place(Scrub(v, rules), path) == x
    decreases |path|
  {
    if path != [] {
      var next := if path[0].Key? then Field(v, path[0].key) else if v.Arr? && path[0].index < |v.a| then v.a[path[0].index] else Null;
      TheRestIsShown(next, rules, path[1..]);
    }
  }

  // ----- unmasking undoes masking -------------------------------------------------------------

  lemma {:induction false} UntouchedComesBack(v: J, rules: Rules, path: seq<Step>)
    ensures Back(v, v, rules, path) == Result(v, {})
  {
    if v.Obj? {
      forall k | k in v.m ensures BackField(k, v.m[k], v, rules, path) == Result(v.m[k], {}) {
        UntouchedComesBack(v.m[k], rules, path + [Key(k)]);
      }
      assert Back(v, v, rules, path).value.m == v.m;
    }
  }

  /** Whatever the rules mask, the form shown comes back as the backup's value. */
  lemma RoundTrip(v: J, rules: Rules, path: seq<Step>)
    ensures Back(Scrub(v, rules), v, rules, path) == Result(v, {})
  {
    match v
    case Obj(m) =>
      var given := Scrub(v, rules);
      forall k | k in m ensures BackField(k, given.m[k], v, rules, path) == Result(m[k], {}) {
        UntouchedComesBack(m[k], rules, path + [Key(k)]);
      }
      assert Back(given, v, rules, path).value.m == m;
    case _ =>
  }

  // ----- no secret is made up -----------------------------------------------------------------

  /** ``s`` is one of the texts in ``v``. */
  ghost predicate Has(v: J, s: string) {
    match v
    case Obj(m) => exists k :: k in m && Has(m[k], s)
    case Arr(a) => exists i :: 0 <= i < |a| && Has(a[i], s)
    case Str(t) => s == t
    case _ => false
  }

  /** With no miss, a text in the result that looks masked is one the backup itself holds. */
  lemma {:induction false} MaskedTextsAreTheBackups(given: J, stored: J, rules: Rules, path: seq<Step>, s: string)
    requires Back(given, stored, rules, path).misses == {} && Masked(s) && Has(Back(given, stored, rules, path).value, s)
    ensures Has(stored, s)
    decreases given, 1
  {
    var r := Back(given, stored, rules, path);
    match given
    case Obj(m) =>
      var k :| k in m && Has(r.value.m[k], s);
      assert forall p :: p in BackField(k, m[k], stored, rules, path).misses ==> p in r.misses;
      FieldTextsAreTheBackups(k, m[k], stored, rules, path, s);
    case Arr(a) =>
      var st := if stored.Arr? then stored.a else [];
      if !SameOrder(a, st, rules) {
        var i :| 0 <= i < |a| && Has(r.value.a[i], s);
        assert forall p :: p in BackItem(a[i], st, rules, path + [At(i)]).misses ==> p in r.misses;
        ItemTextsAreTheBackups(a[i], st, rules, path + [At(i)], s);
      }
    case Str(t) =>
      assert stored != given && r.value == given ==> path in r.misses;
    case _ =>
  }

  lemma {:induction false} FieldTextsAreTheBackups(k: string, v: J, stored: J, rules: Rules, path: seq<Step>, s: string)
    requires BackField(k, v, stored, rules, path).misses == {} && Masked(s) && Has(BackField(k, v, stored, rules, path).value, s)
    ensures Has(stored, s)
    decreases v, 2
  {
    if !(stored.Obj? && k in stored.m && v != stored.m[k] && v == ScrubField(k, stored.m[k], rules)) {
      MaskedTextsAreTheBackups(v, Field(stored, k), rules, path + [Key(k)], s);
    }
  }

  lemma {:induction false} ItemTextsAreTheBackups(g: J, stored: seq<J>, rules: Rules, path: seq<Step>, s: string)
    requires BackItem(g, stored, rules, path).misses == {} && Masked(s) && Has(BackItem(g, stored, rules, path).value, s)
    ensures exists i :: 0 <= i < |stored| && Has(stored[i], s)
    decreases g, 2
  {
    if g in stored {
    } else if Count(g, stored, rules) == 1 {
      assert Has(stored[Index(g, stored, rules)], s);
    } else {
      MaskedTextsAreTheBackups(g, Null, rules, path, s);
    }
  }

  lemma OneStepDown(path: seq<Step>, step: Step, miss: seq<Step>)
    requires path + [step] <= miss
    ensures path <= miss && miss[|path|..] != [] && miss[|path|..][0] == step && miss[|path|..][1..] == miss[|path + [step]|..]
  {
    assert miss[|path|..][1..] == miss[|path| + 1..];
    assert miss[|path|] == (path + [step])[|path|];
    assert path == (path + [step])[..|path|];
  }

  lemma FieldMisses(k: string, v: J, stored: J, rules: Rules, path: seq<Step>, miss: seq<Step>)
    requires miss in BackField(k, v, stored, rules, path).misses
    ensures miss in Back(v, Field(stored, k), rules, path + [Key(k)]).misses
  {
    hide Back;
  }

  lemma ItemMisses(g: J, stored: seq<J>, rules: Rules, path: seq<Step>, miss: seq<Step>)
    requires miss in BackItem(g, stored, rules, path).misses
    ensures miss in Back(g, Null, rules, path).misses
  {
    hide Back;
  }

  /** A miss names a place of the form whose text looks masked. */
  lemma {:induction false} MissesShowTheMask(given: J, stored: J, rules: Rules, path: seq<Step>, miss: seq<Step>)
    requires miss in Back(given, stored, rules, path).misses
    ensures path <= miss && var v := Place(given, miss[|path|..]); v.Str? && Masked(v.s)
    decreases given, 1
  {
    hide Scrub, SameOrder, BackField, BackItem, Masked;
    match given
    case Obj(m) =>
      var k :| k in m && miss in BackField(k, m[k], stored, rules, path).misses;
      FieldMisses(k, m[k], stored, rules, path, miss);
      MissesShowTheMask(m[k], Field(stored, k), rules, path + [Key(k)], miss);
      OneStepDown(path, Key(k), miss);
    case Arr(a) =>
      var st := if stored.Arr? then stored.a else [];
      var i :| 0 <= i < |a| && miss in BackItem(a[i], st, rules, path + [At(i)]).misses;
      ItemMisses(a[i], st, rules, path + [At(i)], miss);
      MissesShowTheMask(a[i], Null, rules, path + [At(i)], miss);
      OneStepDown(path, At(i), miss);
    case Str(_) =>
    case _ =>
  }

  // ----- edits stay ---------------------------------------------------------------------------

  ghost predicate Plain(v: J) {
    forall s :: Has(v, s) ==> !Masked(s)
  }

  /** A text the rules change shows the mask. */
  ghost predicate Marks(rules: Rules) {
    forall s :: rules.text(s) != s ==> Masked(rules.text(s))
  }

  lemma StarsAreMasked()
    ensures Masked("***")
  {
    assert Holds3("***", 0);
  }

  lemma {:induction false} PlainFormIsTheValue(v: J, rules: Rules)
    requires Marks(rules) && Plain(Scrub(v, rules))
    ensures Scrub(v, rules) == v
    decreases v, 1
  {
    var shown := Scrub(v, rules);
    match v
    case Obj(m) =>
      forall k | k in m ensures shown.m[k] == m[k] {
        assert forall s :: Has(shown.m[k], s) ==> Has(shown, s);
        PlainFieldIsTheValue(k, m[k], rules);
      }
      assert shown.m == m;
    case Arr(a) =>
      forall i | 0 <= i < |a| ensures shown.a[i] == a[i] {
        assert forall s :: Has(shown.a[i], s) ==> Has(shown, s);
        PlainFormIsTheValue(a[i], rules);
      }
      assert shown.a == a;
    case Str(s) =>
      assert Has(shown, rules.text(s));
    case _ =>
  }

  lemma {:induction false} PlainFieldIsTheValue(k: string, v: J, rules: Rules)
    requires Marks(rules) && Plain(ScrubField(k, v, rules))
    ensures ScrubField(k, v, rules) == v
    decreases v, 2
  {
    StarsAreMasked();
    assert Has(Str("***"), "***");
    if ScrubField(k, v, rules) == Scrub(v, rules) && ScrubField(k, v, rules) != Str("***") {
      PlainFormIsTheValue(v, rules);
    }
  }

  /** A form with no masked text in it comes back as it is, without a miss: nothing of the backup replaces what was typed. */
  lemma {:induction false} EditsStay(given: J, stored: J, rules: Rules, path: seq<Step>)
    requires Marks(rules) && Plain(given)
    ensures Back(given, stored, rules, path) == Result(given, {})
    decreases given, 1
  {
    match given
    case Obj(m) =>
      forall k | k in m ensures BackField(k, m[k], stored, rules, path) == Result(m[k], {}) {
        assert forall s :: Has(m[k], s) ==> Has(given, s);
        if stored.Obj? && k in stored.m && m[k] == ScrubField(k, stored.m[k], rules) { PlainFieldIsTheValue(k, stored.m[k], rules); }
        EditsStay(m[k], Field(stored, k), rules, path + [Key(k)]);
      }
      assert Back(given, stored, rules, path).value.m == m;
    case Arr(a) =>
      var st := if stored.Arr? then stored.a else [];
      forall i | 0 <= i < |a| ensures BackItem(a[i], st, rules, path + [At(i)]) == Result(a[i], {}) {
        assert forall s :: Has(a[i], s) ==> Has(given, s);
        if a[i] !in st && Count(a[i], st, rules) == 1 { PlainFormIsTheValue(st[Index(a[i], st, rules)], rules); }
        EditsStay(a[i], Null, rules, path + [At(i)]);
      }
      if SameOrder(a, st, rules) {
        forall i | 0 <= i < |a| ensures st[i] == a[i] {
          assert forall s :: Has(a[i], s) ==> Has(given, s);
          if a[i] == Scrub(st[i], rules) { PlainFormIsTheValue(st[i], rules); }
        }
        assert st == a;
      } else {
        assert Back(given, stored, rules, path).value.a == a;
      }
    case Str(s) =>
      assert Has(given, s);
      if stored.Str? && Scrub(stored, rules) == given { PlainFormIsTheValue(stored, rules); }
    case _ =>
  }

  // ----- some places edited, others not -------------------------------------------------------

  /** ``path`` leads through objects, by keys they have. */
  ghost predicate Leads(v: J, path: seq<Step>) {
    path == [] || (path[0].Key? && v.Obj? && path[0].key in v.m && Leads(v.m[path[0].key], path[1..]))
  }

  /** Whatever else was edited: a place that is as it was shown comes back as the backup has it. */
  lemma {:induction false} ShownPlaceComesBack(given: J, stored: J, rules: Rules, at: seq<Step>, path: seq<Step>)
    requires Leads(given, path) && Leads(stored, path) && path != [] && path[|path| - 1].Key?
    requires Place(given, path) == ScrubField(path[|path| - 1].key, Place(stored, path), rules)
    ensures Place(Back(given, stored, rules, at).value, path) == Place(stored, path)
    decreases |path|
  {
    hide ScrubField;
    var k := path[0].key;
    var v, was := given.m[k], stored.m[k];
    assert Back(given, stored, rules, at).value.m[k] == BackField(k, v, stored, rules, at).value;
    if |path| > 1 {
      if !(v != was && v == ScrubField(k, was, rules)) { ShownPlaceComesBack(v, was, rules, at + [Key(k)], path[1..]); }
    } else {
      assert path[1..] == [];
      UntouchedComesBack(was, rules, at + [Key(k)]);
    }
  }

  /** ... and one where something was typed stays as typed. */
  lemma {:induction false} TypedPlaceStays(given: J, stored: J, rules: Rules, at: seq<Step>, path: seq<Step>)
    requires Marks(rules) && Leads(given, path) && Plain(Place(given, path))
    ensures Place(Back(given, stored, rules, at).value, path) == Place(given, path)
    decreases |path|
  {
    if path == [] {
      EditsStay(given, stored, rules, at);
    } else {
      var k := path[0].key;
      var v := given.m[k];
      assert Back(given, stored, rules, at).value.m[k] == BackField(k, v, stored, rules, at).value;
      if stored.Obj? && k in stored.m && v == ScrubField(k, stored.m[k], rules) {
        PlainPlaceIsTheValue(k, stored.m[k], rules, path[1..]);
        UntouchedComesBack(v, rules, at + [Key(k)]);
      } else {
        TypedPlaceStays(v, Field(stored, k), rules, at + [Key(k)], path[1..]);
      }
    }
  }

  lemma {:induction false} PlainPlaceIsTheValue(k: string, v: J, rules: Rules, path: seq<Step>)
    requires Marks(rules) && Leads(ScrubField(k, v, rules), path) && Plain(Place(ScrubField(k, v, rules), path))
    ensures Place(v, path) == Place(ScrubField(k, v, rules), path)
    decreases |path|
  {
    if path == [] {
      PlainFieldIsTheValue(k, v, rules);
    } else {
      var key, shown := path[0].key, ScrubField(k, v, rules);
      assert shown.Obj? && shown == Scrub(v, rules) && v.Obj? && shown.m[key] == ScrubField(key, v.m[key], rules);
      PlainPlaceIsTheValue(key, v.m[key], rules, path[1..]);
    }
  }

  /** An item of a list that was moved: the only one with its masked form is found again. */
  lemma MovedItemComesBack(given: seq<J>, stored: seq<J>, rules: Rules, at: seq<Step>, i: nat, j: nat)
    requires i < |given| && j < |stored| && given[i] == Scrub(stored[j], rules) && given[i] !in stored
    requires forall n :: 0 <= n < |stored| && n != j ==> Scrub(stored[n], rules) != given[i]
    ensures Back(Arr(given), Arr(stored), rules, at).value.a[i] == stored[j]
  {
    hide Scrub;
    CountsOnce(given[i], stored, rules, j);
    var r := Index(given[i], stored, rules);
    assert r == j;
  }

  lemma {:induction false} CountsOnce(g: J, stored: seq<J>, rules: Rules, j: nat)
    requires j < |stored| && Scrub(stored[j], rules) == g && forall n :: 0 <= n < |stored| && n != j ==> Scrub(stored[n], rules) != g
    ensures Count(g, stored, rules) == 1
  {
    hide Scrub;
    if j == 0 {
      CountsNone(g, stored[1..], rules);
    } else {
      CountsOnce(g, stored[1..], rules, j - 1);
    }
  }

  lemma {:induction false} CountsNone(g: J, stored: seq<J>, rules: Rules)
    requires forall n :: 0 <= n < |stored| ==> Scrub(stored[n], rules) != g
    ensures Count(g, stored, rules) == 0
  {
    hide Scrub;
    if stored != [] { CountsNone(g, stored[1..], rules); }
  }
}
